/** What the search for documents finds, and how the trees account for it. */
module DiscoveryProofs {
  import opened Text
  import opened SetFacts
  import opened Discovery

  // ---- What a tree holds ----

  function Leaves(t: Tree): multiset<Document> {
    match t
    case Folder(_, children) => LeavesOfAll(children)
    case Leaf(document) => multiset{document}
  }

  function LeavesOfAll(ts: seq<Tree>): multiset<Document> {
    if ts == [] then multiset{} else LeavesOfAll(ts[..|ts| - 1]) + Leaves(ts[|ts| - 1])
  }

  function Folders(t: Tree): multiset<Path> {
    match t
    case Folder(source, children) => multiset{source} + FoldersOfAll(children)
    case Leaf(_) => multiset{}
  }

  function FoldersOfAll(ts: seq<Tree>): multiset<Path> {
    if ts == [] then multiset{} else FoldersOfAll(ts[..|ts| - 1]) + Folders(ts[|ts| - 1])
  }

  lemma HoldsPush(ts: seq<Tree>, t: Tree)
    ensures LeavesOfAll(ts + [t]) == LeavesOfAll(ts) + Leaves(t)
    ensures FoldersOfAll(ts + [t]) == FoldersOfAll(ts) + Folders(t)
  {
    assert (ts + [t])[..|ts|] == ts;
  }

  lemma AddLast<T>(a: multiset<T>, b: multiset<T>, c: multiset<T>)
    ensures (a + b) + c == a + (b + c)
  {
  }

  lemma {:induction false} LeavesConcat(a: seq<Tree>, b: seq<Tree>)
    ensures LeavesOfAll(a + b) == LeavesOfAll(a) + LeavesOfAll(b)
    decreases |b|
  {
    if b == [] {
      assert a + b == a;
    } else {
      var front, last := b[..|b| - 1], b[|b| - 1];
      LeavesConcat(a, front);
      assert (a + b)[..|a + b| - 1] == a + front && (a + b)[|a + b| - 1] == last;
      AddLast(LeavesOfAll(a), LeavesOfAll(front), Leaves(last));
    }
  }

  lemma {:induction false} FoldersConcat(a: seq<Tree>, b: seq<Tree>)
    ensures FoldersOfAll(a + b) == FoldersOfAll(a) + FoldersOfAll(b)
    decreases |b|
  {
    if b == [] {
      assert a + b == a;
    } else {
      var front, last := b[..|b| - 1], b[|b| - 1];
      FoldersConcat(a, front);
      assert (a + b)[..|a + b| - 1] == a + front && (a + b)[|a + b| - 1] == last;
      AddLast(FoldersOfAll(a), FoldersOfAll(front), Folders(last));
    }
  }

  lemma SwapLast<T>(a: multiset<T>, b: multiset<T>, c: multiset<T>)
    ensures (a + b) + c == (a + c) + b
  {
  }

  lemma {:induction false} InsertLeaves(order: Order, ts: seq<Tree>, t: Tree)
    ensures LeavesOfAll(Insert(order, ts, t)) == LeavesOfAll(ts) + Leaves(t)
  {
    if ts == [] || order(ts[|ts| - 1], t) {
      HoldsPush(ts, t);
    } else {
      var front, last := ts[..|ts| - 1], ts[|ts| - 1];
      InsertLeaves(order, front, t);
      HoldsPush(Insert(order, front, t), last);
      SwapLast(LeavesOfAll(front), Leaves(t), Leaves(last));
    }
  }

  lemma {:induction false} InsertFolders(order: Order, ts: seq<Tree>, t: Tree)
    ensures FoldersOfAll(Insert(order, ts, t)) == FoldersOfAll(ts) + Folders(t)
  {
    if ts == [] || order(ts[|ts| - 1], t) {
      HoldsPush(ts, t);
    } else {
      var front, last := ts[..|ts| - 1], ts[|ts| - 1];
      InsertFolders(order, front, t);
      HoldsPush(Insert(order, front, t), last);
      SwapLast(FoldersOfAll(front), Folders(t), Folders(last));
    }
  }

  /** Sorting keeps what the trees hold. */
  lemma {:induction false} SortHolds(order: Order, ts: seq<Tree>)
    ensures LeavesOfAll(Sort(order, ts)) == LeavesOfAll(ts)
    ensures FoldersOfAll(Sort(order, ts)) == FoldersOfAll(ts)
  {
    if ts != [] {
      SortHolds(order, ts[..|ts| - 1]);
      InsertLeaves(order, Sort(order, ts[..|ts| - 1]), ts[|ts| - 1]);
      InsertFolders(order, Sort(order, ts[..|ts| - 1]), ts[|ts| - 1]);
    }
  }

  // ---- Conservation: the trees and the flat list ----

  /** The tree holds exactly the documents that were added to the list, and one folder for every directory entered. */
  ghost predicate Accounts(leaves: multiset<Document>, folders: multiset<Path>, before: Walk, after: Walk) {
    && leaves + multiset(before.documents) == multiset(after.documents)
    && folders == multiset(after.visited - before.visited)
    && before.visited <= after.visited
  }

  lemma AccountsOneAfterAnother(
      a: multiset<Document>, b: multiset<Document>, c: multiset<Path>, d: multiset<Path>, w0: Walk, w1: Walk,
      w2: Walk)
    requires Accounts(a, c, w0, w1) && Accounts(b, d, w1, w2)
    ensures Accounts(a + b, c + d, w0, w2)
  {
    assert w2.visited - w0.visited == (w2.visited - w1.visited) + (w1.visited - w0.visited);
    assert multiset(w2.visited - w0.visited) == multiset(w2.visited - w1.visited) + multiset(w1.visited - w0.visited);
  }

  lemma HoldsFirst(t: Tree, ts: seq<Tree>)
    ensures LeavesOfAll([t] + ts) == Leaves(t) + LeavesOfAll(ts)
    ensures FoldersOfAll([t] + ts) == Folders(t) + FoldersOfAll(ts)
  {
    LeavesConcat([t], ts);
    FoldersConcat([t], ts);
    HoldsPush([], t);
    assert [] + [t] == [t];
  }

  lemma EnteringAccounts(w: Walk, path: Path)
    requires path !in w.visited
    ensures Accounts(multiset{}, multiset{path}, w, Entered(w, path))
  {
    assert Entered(w, path).visited - w.visited == {path};
  }

  lemma NotingAccounts(w: Walk, document: Document)
    ensures Accounts(multiset{document}, multiset{}, w, Noted(w, document))
  {
    assert Noted(w, document).visited - w.visited == {};
  }

  lemma {:induction false} VisitAccounts(fs: FileSystem, order: Order, root: Path, directory: Path, w: Walk)
    requires VisitDirectory(fs, order, root, directory, w).Visited?
    ensures var v := VisitDirectory(fs, order, root, directory, w);
      v.tree.Folder? && Accounts(Leaves(v.tree), FoldersOfAll(v.tree.children), w, v.walk) && v.tree.source == directory
    decreases Unvisited(fs, w), 1, 0
  {
    var entries := Entries(fs, directory).value;
    ListAccounts(fs, order, root, entries, w);
    SortHolds(order, ListEntries(fs, order, root, entries, w).children);
  }

  lemma {:induction false} ListAccounts(fs: FileSystem, order: Order, root: Path, entries: seq<Entry>, w: Walk)
    requires ListEntries(fs, order, root, entries, w).Listed?
    ensures var l := ListEntries(fs, order, root, entries, w);
      Accounts(LeavesOfAll(l.children), FoldersOfAll(l.children), w, l.walk)
    decreases Unvisited(fs, w), 0, |entries|
  {
    if entries == [] {
      assert w.visited - w.visited == {};
    } else {
      var finding := Consider(fs, root, entries[0]);
      if finding.Subdirectory? && finding.path !in w.visited {
        var inside := Entered(w, finding.path);
        DifferenceStep(Directories(fs), w.visited, finding.path);
        var v := VisitDirectory(fs, order, root, finding.path, inside);
        SubsetSize(Directories(fs) - v.walk.visited, Directories(fs) - w.visited);
        VisitAccounts(fs, order, root, finding.path, inside);
        ListAccounts(fs, order, root, entries[1..], v.walk);
        var rest := ListEntries(fs, order, root, entries[1..], v.walk);
        EnteringAccounts(w, finding.path);
        AccountsOneAfterAnother(multiset{}, Leaves(v.tree), multiset{finding.path}, FoldersOfAll(v.tree.children), w,
          inside, v.walk);
        AccountsOneAfterAnother(Leaves(v.tree), LeavesOfAll(rest.children), Folders(v.tree),
          FoldersOfAll(rest.children), w, v.walk, rest.walk);
        HoldsFirst(v.tree, rest.children);
      } else if finding.Found? && finding.document.source !in w.seen {
        var noted := Noted(w, finding.document);
        ListAccounts(fs, order, root, entries[1..], noted);
        var rest := ListEntries(fs, order, root, entries[1..], noted);
        NotingAccounts(w, finding.document);
        AccountsOneAfterAnother(multiset{finding.document}, LeavesOfAll(rest.children), multiset{},
          FoldersOfAll(rest.children), w, noted, rest.walk);
        HoldsFirst(Leaf(finding.document), rest.children);
      } else {
        ListAccounts(fs, order, root, entries[1..], w);
      }
    }
  }

  // ---- The list names every seen file once ----

  ghost predicate ListsSeen(w: Walk) {
    && (forall i, j | 0 <= i < j < |w.documents| :: w.documents[i].source != w.documents[j].source)
    && (forall i | 0 <= i < |w.documents| :: w.documents[i].source in w.seen)
    && (forall source | source in w.seen :: exists i :: 0 <= i < |w.documents| && w.documents[i].source == source)
  }

  lemma NotedListsSeen(w: Walk, document: Document)
    requires ListsSeen(w) && document.source !in w.seen
    ensures ListsSeen(Noted(w, document))
  {
    var after := Noted(w, document);
    forall source | source in after.seen
      ensures exists i :: 0 <= i < |after.documents| && after.documents[i].source == source
    {
      if source == document.source {
        assert after.documents[|w.documents|].source == source;
      } else {
        var i :| 0 <= i < |w.documents| && w.documents[i].source == source;
        assert after.documents[i].source == source;
      }
    }
  }

  lemma {:induction false} VisitListsSeen(fs: FileSystem, order: Order, root: Path, directory: Path, w: Walk)
    requires ListsSeen(w) && VisitDirectory(fs, order, root, directory, w).Visited?
    ensures ListsSeen(VisitDirectory(fs, order, root, directory, w).walk)
    decreases Unvisited(fs, w), 1, 0
  {
    EntriesListSeen(fs, order, root, Entries(fs, directory).value, w);
  }

  lemma {:induction false} EntriesListSeen(fs: FileSystem, order: Order, root: Path, entries: seq<Entry>, w: Walk)
    requires ListsSeen(w) && ListEntries(fs, order, root, entries, w).Listed?
    ensures ListsSeen(ListEntries(fs, order, root, entries, w).walk)
    decreases Unvisited(fs, w), 0, |entries|
  {
    if entries != [] {
      var finding := Consider(fs, root, entries[0]);
      if finding.Subdirectory? && finding.path !in w.visited {
        DifferenceStep(Directories(fs), w.visited, finding.path);
        var v := VisitDirectory(fs, order, root, finding.path, Entered(w, finding.path));
        SubsetSize(Directories(fs) - v.walk.visited, Directories(fs) - w.visited);
        VisitListsSeen(fs, order, root, finding.path, Entered(w, finding.path));
        EntriesListSeen(fs, order, root, entries[1..], v.walk);
      } else if finding.Found? && finding.document.source !in w.seen {
        NotedListsSeen(w, finding.document);
        EntriesListSeen(fs, order, root, entries[1..], Noted(w, finding.document));
      } else {
        EntriesListSeen(fs, order, root, entries[1..], w);
      }
    }
  }

  // ---- Everything reachable, and nothing else ----

  /** The links below `root` never lead out of these directories. */
  ghost predicate Closed(fs: FileSystem, root: Path, directories: set<Path>) {
    forall d, i | d in directories && Entries(fs, d).Some? && 0 <= i < |Entries(fs, d).value| ::
      var finding := Consider(fs, root, Entries(fs, d).value[i]);
      finding.Subdirectory? ==> finding.path in directories
  }

  /** Reachable from `root` by links that stay below it. */
  ghost predicate Reachable(fs: FileSystem, root: Path, directory: Path) {
    forall directories: set<Path> | root in directories && Closed(fs, root, directories) :: directory in directories
  }

  /** The directory can be read, and so can everything in it that matters. */
  ghost predicate Clean(fs: FileSystem, root: Path, directory: Path) {
    && Entries(fs, directory).Some?
    && forall i | 0 <= i < |Entries(fs, directory).value| ::
      !Consider(fs, root, Entries(fs, directory).value[i]).Broken?
  }

  predicate Settled(finding: Finding, w: Walk) {
    match finding
    case Broken => false
    case Ignored => true
    case Subdirectory(path) => path in w.visited
    case Found(document) => document.source in w.seen
  }

  ghost predicate AllSettled(fs: FileSystem, root: Path, entries: seq<Entry>, w: Walk) {
    forall i | 0 <= i < |entries| :: Settled(Consider(fs, root, entries[i]), w)
  }

  ghost predicate Explored(fs: FileSystem, root: Path, directory: Path, w: Walk) {
    Entries(fs, directory).Some? && AllSettled(fs, root, Entries(fs, directory).value, w)
  }

  predicate Grows(w: Walk, after: Walk) {
    w.visited <= after.visited && w.seen <= after.seen
  }

  /** Every directory entered on the way has been explored. */
  ghost predicate NewExplored(fs: FileSystem, root: Path, w: Walk, after: Walk) {
    && Grows(w, after)
    && forall d | d in after.visited - w.visited :: Explored(fs, root, d, after)
  }

  lemma NewExploredOneAfterAnother(fs: FileSystem, root: Path, w0: Walk, w1: Walk, w2: Walk)
    requires NewExplored(fs, root, w0, w1) && NewExplored(fs, root, w1, w2)
    ensures NewExplored(fs, root, w0, w2)
  {
    forall d | d in w2.visited - w0.visited ensures Explored(fs, root, d, w2) {
      if d in w1.visited {
        assert Explored(fs, root, d, w1);
      } else {
        assert d in w2.visited - w1.visited;
      }
    }
  }

  lemma {:induction false} VisitExplores(fs: FileSystem, order: Order, root: Path, directory: Path, w: Walk)
    requires VisitDirectory(fs, order, root, directory, w).Visited?
    ensures var v := VisitDirectory(fs, order, root, directory, w);
      NewExplored(fs, root, w, v.walk) && Explored(fs, root, directory, v.walk)
    decreases Unvisited(fs, w), 1, 0
  {
    ListExplores(fs, order, root, Entries(fs, directory).value, w);
  }

  lemma {:induction false} ListExplores(fs: FileSystem, order: Order, root: Path, entries: seq<Entry>, w: Walk)
    requires ListEntries(fs, order, root, entries, w).Listed?
    ensures var l := ListEntries(fs, order, root, entries, w);
      NewExplored(fs, root, w, l.walk) && AllSettled(fs, root, entries, l.walk)
    decreases Unvisited(fs, w), 0, |entries|
  {
    if entries != [] {
      var finding := Consider(fs, root, entries[0]);
      var after := ListEntries(fs, order, root, entries, w).walk;
      if finding.Subdirectory? && finding.path !in w.visited {
        var inside := Entered(w, finding.path);
        DifferenceStep(Directories(fs), w.visited, finding.path);
        var v := VisitDirectory(fs, order, root, finding.path, inside);
        SubsetSize(Directories(fs) - v.walk.visited, Directories(fs) - w.visited);
        VisitExplores(fs, order, root, finding.path, inside);
        ListExplores(fs, order, root, entries[1..], v.walk);
        forall d | d in v.walk.visited - w.visited ensures Explored(fs, root, d, v.walk) {
          assert d == finding.path || d in v.walk.visited - inside.visited;
        }
        NewExploredOneAfterAnother(fs, root, w, v.walk, after);
      } else if finding.Found? && finding.document.source !in w.seen {
        ListExplores(fs, order, root, entries[1..], Noted(w, finding.document));
        NewExploredOneAfterAnother(fs, root, w, Noted(w, finding.document), after);
      } else {
        ListExplores(fs, order, root, entries[1..], w);
      }
      forall i | 0 <= i < |entries| ensures Settled(Consider(fs, root, entries[i]), after) {
        if i > 0 {
          assert Settled(Consider(fs, root, entries[1..][i - 1]), after);
        }
      }
    }
  }

  // ---- Nothing else ----

  /** Where a file may have come from. */
  ghost predicate FoundIn(fs: FileSystem, root: Path, directories: set<Path>, source: Path) {
    exists d, i :: d in directories && Entries(fs, d).Some? && 0 <= i < |Entries(fs, d).value|
      && var finding := Consider(fs, root, Entries(fs, d).value[i]); finding.Found? && finding.document.source == source
  }

  /** Only these directories are entered, and only files found in them are added. */
  ghost predicate StaysIn(fs: FileSystem, root: Path, directories: set<Path>, w: Walk, after: Walk) {
    && after.visited - w.visited <= directories
    && forall source | source in after.seen - w.seen :: FoundIn(fs, root, directories, source)
  }

  /** The entries are some of a directory's. */
  ghost predicate EntriesOf(fs: FileSystem, directory: Path, entries: seq<Entry>) {
    && Entries(fs, directory).Some?
    && |entries| <= |Entries(fs, directory).value|
    && entries == Entries(fs, directory).value[|Entries(fs, directory).value| - |entries|..]
  }

  lemma {:induction false} VisitStays(
      fs: FileSystem, order: Order, root: Path, directory: Path, w: Walk, directories: set<Path>)
    requires Closed(fs, root, directories) && directory in directories
    ensures var v := VisitDirectory(fs, order, root, directory, w);
      if v.Visited? then StaysIn(fs, root, directories, w, v.walk)
      else exists d :: d in directories && !Clean(fs, root, d)
    decreases Unvisited(fs, w), 1, 0
  {
    if Entries(fs, directory).Some? {
      ListStays(fs, order, root, directory, Entries(fs, directory).value, w, directories);
    } else {
      assert !Clean(fs, root, directory);
    }
  }

  lemma {:induction false} ListStays(
      fs: FileSystem, order: Order, root: Path, directory: Path, entries: seq<Entry>, w: Walk,
      directories: set<Path>)
    requires Closed(fs, root, directories) && directory in directories && EntriesOf(fs, directory, entries)
    ensures var l := ListEntries(fs, order, root, entries, w);
      if l.Listed? then StaysIn(fs, root, directories, w, l.walk)
      else exists d :: d in directories && !Clean(fs, root, d)
    decreases Unvisited(fs, w), 0, |entries|
  {
    if entries != [] {
      var i := |Entries(fs, directory).value| - |entries|;
      assert entries[0] == Entries(fs, directory).value[i];
      assert EntriesOf(fs, directory, entries[1..]);
      var finding := Consider(fs, root, entries[0]);
      if finding.Broken? {
        assert !Clean(fs, root, directory);
      } else if finding.Subdirectory? && finding.path !in w.visited {
        DifferenceStep(Directories(fs), w.visited, finding.path);
        VisitStays(fs, order, root, finding.path, Entered(w, finding.path), directories);
        var v := VisitDirectory(fs, order, root, finding.path, Entered(w, finding.path));
        if v.Visited? {
          SubsetSize(Directories(fs) - v.walk.visited, Directories(fs) - w.visited);
          ListStays(fs, order, root, directory, entries[1..], v.walk, directories);
        }
      } else if finding.Found? && finding.document.source !in w.seen {
        ListStays(fs, order, root, directory, entries[1..], Noted(w, finding.document), directories);
        assert FoundIn(fs, root, directories, finding.document.source);
      } else {
        ListStays(fs, order, root, directory, entries[1..], w, directories);
      }
    }
  }

  // ---- One root ----

  lemma VisitedIsClosed(fs: FileSystem, order: Order, root: Path, w: Walk)
    requires w.visited == {root} && VisitDirectory(fs, order, root, root, w).Visited?
    ensures Closed(fs, root, VisitDirectory(fs, order, root, root, w).walk.visited)
  {
    VisitExplores(fs, order, root, root, w);
    var after := VisitDirectory(fs, order, root, root, w).walk;
    forall d, i | d in after.visited && Entries(fs, d).Some? && 0 <= i < |Entries(fs, d).value|
      ensures var finding := Consider(fs, root, Entries(fs, d).value[i]);
        finding.Subdirectory? ==> finding.path in after.visited
    {
      assert Explored(fs, root, d, after);
      assert Settled(Consider(fs, root, Entries(fs, d).value[i]), after);
    }
  }

  /** The directories entered are exactly the reachable ones, despite cycles, and the tree has one folder for each. */
  lemma EntersTheReachable(fs: FileSystem, order: Order, root: Path, w: Walk, directory: Path)
    requires w.visited == {root} && VisitDirectory(fs, order, root, root, w).Visited?
    ensures var v := VisitDirectory(fs, order, root, root, w);
      && Folders(v.tree)[directory] == (if Reachable(fs, root, directory) then 1 else 0)
      && (directory in v.walk.visited <==> Reachable(fs, root, directory))
  {
    var v := VisitDirectory(fs, order, root, root, w);
    VisitAccounts(fs, order, root, root, w);
    VisitedIsClosed(fs, order, root, w);
    if directory in v.walk.visited {
      forall directories: set<Path> | root in directories && Closed(fs, root, directories)
        ensures directory in directories
      {
        VisitStays(fs, order, root, root, w, directories);
      }
    }
    assert Folders(v.tree) == multiset{root} + multiset(v.walk.visited - {root});
  }

  ghost predicate FoundBelow(fs: FileSystem, root: Path, source: Path) {
    exists d, i :: Reachable(fs, root, d) && Entries(fs, d).Some? && 0 <= i < |Entries(fs, d).value|
      && var finding := Consider(fs, root, Entries(fs, d).value[i]); finding.Found? && finding.document.source == source
  }

  /** And the files seen afterwards are those seen before and the Markdown files in reachable directories. */
  lemma SeesTheReachable(fs: FileSystem, order: Order, root: Path, w: Walk, source: Path)
    requires w.visited == {root} && VisitDirectory(fs, order, root, root, w).Visited?
    ensures source in VisitDirectory(fs, order, root, root, w).walk.seen
      <==> source in w.seen || FoundBelow(fs, root, source)
  {
    var after := VisitDirectory(fs, order, root, root, w).walk;
    VisitExplores(fs, order, root, root, w);
    if FoundBelow(fs, root, source) {
      var d, i :| Reachable(fs, root, d) && Entries(fs, d).Some? && 0 <= i < |Entries(fs, d).value|
        && var finding := Consider(fs, root, Entries(fs, d).value[i]);
          finding.Found? && finding.document.source == source;
      EntersTheReachable(fs, order, root, w, d);
      assert Explored(fs, root, d, after);
      assert Settled(Consider(fs, root, Entries(fs, d).value[i]), after);
    }
    if source in after.seen && source !in w.seen {
      VisitedIsClosed(fs, order, root, w);
      VisitStays(fs, order, root, root, w, after.visited);
      assert FoundIn(fs, root, after.visited, source);
      var d, i :| d in after.visited && Entries(fs, d).Some? && 0 <= i < |Entries(fs, d).value|
        && var finding := Consider(fs, root, Entries(fs, d).value[i]);
          finding.Found? && finding.document.source == source;
      EntersTheReachable(fs, order, root, w, d);
    }
  }

  /** The search below a root fails exactly when something that matters in a reachable directory cannot be read. */
  lemma FailsExactlyOnBroken(fs: FileSystem, order: Order, root: Path, w: Walk)
    requires w.visited == {root}
    ensures VisitDirectory(fs, order, root, root, w).Failed?
      <==> exists d :: Reachable(fs, root, d) && !Clean(fs, root, d)
  {
    var v := VisitDirectory(fs, order, root, root, w);
    if v.Visited? {
      VisitExplores(fs, order, root, root, w);
      forall d | Reachable(fs, root, d) ensures Clean(fs, root, d) {
        EntersTheReachable(fs, order, root, w, d);
        assert Explored(fs, root, d, v.walk);
        forall i | 0 <= i < |Entries(fs, d).value| ensures !Consider(fs, root, Entries(fs, d).value[i]).Broken? {
          assert Settled(Consider(fs, root, Entries(fs, d).value[i]), v.walk);
        }
      }
    } else {
      var directories := {root} + set d | d in Directories(fs) && Reachable(fs, root, d);
      ReachableIsClosed(fs, root, directories);
      VisitStays(fs, order, root, root, w, directories);
    }
  }

  lemma ReachableIsClosed(fs: FileSystem, root: Path, directories: set<Path>)
    requires forall d :: d in directories <==> d == root || (d in Directories(fs) && Reachable(fs, root, d))
    ensures Closed(fs, root, directories) && forall d | d in directories :: Reachable(fs, root, d)
  {
    assert Reachable(fs, root, root);
    forall d, i | d in directories && Entries(fs, d).Some? && 0 <= i < |Entries(fs, d).value|
      ensures var finding := Consider(fs, root, Entries(fs, d).value[i]);
        finding.Subdirectory? ==> finding.path in directories
    {
      var finding := Consider(fs, root, Entries(fs, d).value[i]);
      if finding.Subdirectory? {
        forall others: set<Path> | root in others && Closed(fs, root, others) ensures finding.path in others {
          assert d in others;
        }
      }
    }
  }

  // ---- Sorting ----

  ghost predicate IsTotalOrder<T(!new)>(order: (T, T) -> bool) {
    && (forall a, b :: order(a, b) || order(b, a))
    && (forall a, b, c :: order(a, b) && order(b, c) ==> order(a, c))
  }

  ghost predicate Sorted<T>(order: (T, T) -> bool, ts: seq<T>) {
    forall i, j | 0 <= i < j < |ts| :: order(ts[i], ts[j])
  }

  lemma {:induction false} InsertSorts<T(!new)>(order: (T, T) -> bool, ts: seq<T>, t: T)
    requires IsTotalOrder(order) && Sorted(order, ts)
    ensures Sorted(order, Insert(order, ts, t))
  {
    if ts == [] {
    } else if order(ts[|ts| - 1], t) {
      forall i | 0 <= i < |ts| ensures order(ts[i], t) {
        assert i == |ts| - 1 || order(ts[i], ts[|ts| - 1]);
      }
    } else {
      var front, last := ts[..|ts| - 1], ts[|ts| - 1];
      assert ts == front + [last];
      InsertSorts(order, front, t);
      InsertPermutes(order, front, t);
      var inserted := Insert(order, front, t);
      forall i | 0 <= i < |inserted| ensures order(inserted[i], last) {
        assert inserted[i] in multiset(front) + multiset{t};
        if inserted[i] != t {
          assert inserted[i] in front;
        }
      }
    }
  }

  lemma {:induction false} SortSorts<T(!new)>(order: (T, T) -> bool, ts: seq<T>)
    requires IsTotalOrder(order)
    ensures Sorted(order, Sort(order, ts))
  {
    if ts != [] {
      SortSorts(order, ts[..|ts| - 1]);
      InsertSorts(order, Sort(order, ts[..|ts| - 1]), ts[|ts| - 1]);
    }
  }

  lemma {:induction false} InsertPermutes<T>(order: (T, T) -> bool, ts: seq<T>, t: T)
    ensures multiset(Insert(order, ts, t)) == multiset(ts) + multiset{t}
  {
    if ts != [] && !order(ts[|ts| - 1], t) {
      InsertPermutes(order, ts[..|ts| - 1], t);
      assert ts == ts[..|ts| - 1] + [ts[|ts| - 1]];
    }
  }

  lemma {:induction false} SortPermutes<T>(order: (T, T) -> bool, ts: seq<T>)
    ensures multiset(Sort(order, ts)) == multiset(ts)
  {
    if ts != [] {
      SortPermutes(order, ts[..|ts| - 1]);
      InsertPermutes(order, Sort(order, ts[..|ts| - 1]), ts[|ts| - 1]);
      assert ts == ts[..|ts| - 1] + [ts[|ts| - 1]];
    }
  }

  lemma {:induction false} LexicographicTotal(a: string, b: string)
    ensures LexicographicLe(a, b) || LexicographicLe(b, a)
    ensures LexicographicLe(a, b) && LexicographicLe(b, a) ==> a == b
  {
    if a != [] && b != [] {
      LexicographicTotal(a[1..], b[1..]);
      assert a == [a[0]] + a[1..] && b == [b[0]] + b[1..];
    }
  }

  lemma {:induction false} LexicographicTransitive(a: string, b: string, c: string)
    requires LexicographicLe(a, b) && LexicographicLe(b, c)
    ensures LexicographicLe(a, c)
  {
    if a != [] && b != [] && c != [] && a[0] == b[0] == c[0] {
      LexicographicTransitive(a[1..], b[1..], c[1..]);
    }
  }

  /** The order shown to the user is a total order on names with paths. */
  lemma DisplayIsTotal(lower: Lowering, n1: string, p1: string, n2: string, p2: string, n3: string, p3: string)
    ensures DisplayLe(lower, n1, p1, n2, p2) || DisplayLe(lower, n2, p2, n1, p1)
    ensures DisplayLe(lower, n1, p1, n2, p2) && DisplayLe(lower, n2, p2, n3, p3) ==> DisplayLe(lower, n1, p1, n3, p3)
  {
    LexicographicTotal(lower(n1), lower(n2));
    LexicographicTotal(lower(n2), lower(n3));
    LexicographicTotal(p1, p2);
    if DisplayLe(lower, n1, p1, n2, p2) && DisplayLe(lower, n2, p2, n3, p3) {
      if lower(n1) == lower(n2) && lower(n2) == lower(n3) {
        LexicographicTransitive(p1, p2, p3);
      } else if lower(n1) != lower(n2) && lower(n2) != lower(n3) {
        LexicographicTransitive(lower(n1), lower(n2), lower(n3));
      }
    }
  }

  lemma TreesTotallyOrdered(lower: Lowering, fs: FileSystem)
    ensures IsTotalOrder((a: Tree, b: Tree) => TreeLe(lower, fs, a, b))
  {
    forall a: Tree, b: Tree, c: Tree
      ensures TreeLe(lower, fs, a, b) || TreeLe(lower, fs, b, a)
      ensures TreeLe(lower, fs, a, b) && TreeLe(lower, fs, b, c) ==> TreeLe(lower, fs, a, c)
    {
      DisplayIsTotal(lower, NameOf(a), PathOf(fs, a), NameOf(b), PathOf(fs, b), NameOf(c), PathOf(fs, c));
    }
  }

  function NameOf(t: Tree): string {
    if t.Folder? then FileName(t.source) else t.document.title
  }

  function PathOf(fs: FileSystem, t: Tree): string {
    PortablePath(fs, if t.Folder? then t.source else t.document.source)
  }

  lemma DocumentsTotallyOrdered(lower: Lowering, fs: FileSystem)
    ensures IsTotalOrder((a: Document, b: Document) => DocumentLe(lower, fs, a, b))
  {
    forall a: Document, b: Document, c: Document
      ensures DocumentLe(lower, fs, a, b) || DocumentLe(lower, fs, b, a)
      ensures DocumentLe(lower, fs, a, b) && DocumentLe(lower, fs, b, c) ==> DocumentLe(lower, fs, a, c)
    {
      var pa, pb, pc := PortablePath(fs, a.source), PortablePath(fs, b.source), PortablePath(fs, c.source);
      DisplayIsTotal(lower, pa, pa, pb, pb, pc, pc);
    }
  }

  // ---- The catalogue ----

  /** The root is searched: it is not inside a git directory. */
  predicate Searched(root: Root) {
    root.resolved.Some? && !NamesGit(root)
  }

  ghost predicate BelowSome(fs: FileSystem, roots: seq<Root>, source: Path) {
    exists i :: 0 <= i < |roots| && Searched(roots[i]) && FoundBelow(fs, roots[i].resolved.value, source)
  }

  /** The root is refused, or something below it cannot be read. */
  ghost predicate Unusable(fs: FileSystem, root: Root) {
    root.resolved.None?
      || (!NamesGit(root) && exists d :: Reachable(fs, root.resolved.value, d) && !Clean(fs, root.resolved.value, d))
  }

  /** The list names every seen file once, and holds what the trees hold. */
  ghost predicate Catalogued(p: Progress) {
    ListsSeen(Walk({}, p.seen, p.documents)) && multiset(p.documents) == LeavesOfAll(p.roots)
  }

  lemma {:induction false} RootsCatalogued(fs: FileSystem, order: Order, roots: seq<Root>, p: Progress)
    requires Catalogued(p) && VisitRoots(fs, order, roots, p).Some?
    ensures Catalogued(VisitRoots(fs, order, roots, p).value)
    decreases |roots|
  {
    if roots != [] {
      if NamesGit(roots[0]) {
        RootsCatalogued(fs, order, roots[1..], p);
      } else {
        var root := roots[0].resolved.value;
        var w := Walk({root}, p.seen, p.documents);
        VisitAccounts(fs, order, root, root, w);
        VisitListsSeen(fs, order, root, root, w);
        var v := VisitDirectory(fs, order, root, root, w);
        HoldsPush(p.roots, v.tree);
        RootsCatalogued(fs, order, roots[1..], Progress(v.walk.seen, v.walk.documents, p.roots + [v.tree]));
      }
    }
  }

  lemma BelowSomeStep(fs: FileSystem, roots: seq<Root>, source: Path)
    requires roots != []
    ensures BelowSome(fs, roots, source)
      <==> (Searched(roots[0]) && FoundBelow(fs, roots[0].resolved.value, source)) || BelowSome(fs, roots[1..], source)
  {
    if BelowSome(fs, roots, source) {
      var i :| 0 <= i < |roots| && Searched(roots[i]) && FoundBelow(fs, roots[i].resolved.value, source);
      if i > 0 {
        assert roots[1..][i - 1] == roots[i];
      }
    }
    if BelowSome(fs, roots[1..], source) {
      var i :| 0 <= i < |roots[1..]| && Searched(roots[1..][i]) && FoundBelow(fs, roots[1..][i].resolved.value, source);
      assert roots[i + 1] == roots[1..][i];
    }
  }

  lemma {:induction false} RootsSee(fs: FileSystem, order: Order, roots: seq<Root>, p: Progress, source: Path)
    requires VisitRoots(fs, order, roots, p).Some?
    ensures source in VisitRoots(fs, order, roots, p).value.seen <==> source in p.seen || BelowSome(fs, roots, source)
    decreases |roots|
  {
    if roots != [] {
      BelowSomeStep(fs, roots, source);
      if NamesGit(roots[0]) {
        RootsSee(fs, order, roots[1..], p, source);
      } else {
        var root := roots[0].resolved.value;
        var w := Walk({root}, p.seen, p.documents);
        SeesTheReachable(fs, order, root, w, source);
        var v := VisitDirectory(fs, order, root, root, w);
        RootsSee(fs, order, roots[1..], Progress(v.walk.seen, v.walk.documents, p.roots + [v.tree]), source);
      }
    }
  }

  /**
   The catalogue: its list is sorted, names every Markdown file reachable below some root exactly once,
   and holds exactly the documents in the leaves of its trees, which are sorted too.
   */
  lemma CatalogueIsComplete(lower: Lowering, fs: FileSystem, roots: seq<Root>, source: Path)
    requires Discover(lower, fs, roots).Some?
    ensures var catalog := Discover(lower, fs, roots).value;
      && multiset(catalog.documents) == LeavesOfAll(catalog.roots)
      && ((exists d :: d in catalog.documents && d.source == source) <==> BelowSome(fs, roots, source))
      && (forall i, j | 0 <= i < j < |catalog.documents| :: catalog.documents[i].source != catalog.documents[j].source)
      && Sorted((a, b) => DocumentLe(lower, fs, a, b), catalog.documents)
      && Sorted((a, b) => TreeLe(lower, fs, a, b), catalog.roots)
  {
    var order := (a, b) => TreeLe(lower, fs, a, b);
    var byPath := (a, b) => DocumentLe(lower, fs, a, b);
    TreesTotallyOrdered(lower, fs);
    DocumentsTotallyOrdered(lower, fs);
    var start := Progress({}, [], []);
    var p := VisitRoots(fs, order, roots, start).value;
    RootsCatalogued(fs, order, roots, start);
    RootsSee(fs, order, roots, start, source);
    SortHolds(order, p.roots);
    SortSorts(order, p.roots);
    SortSorts(byPath, p.documents);
    SortPermutes(byPath, p.documents);
    DistinctSources(p.documents, Sort(byPath, p.documents));
    SameDocuments(p.documents, Sort(byPath, p.documents));
  }

  lemma SameDocuments(a: seq<Document>, b: seq<Document>)
    requires multiset(a) == multiset(b)
    ensures forall d :: d in a <==> d in b
  {
    forall d ensures d in a <==> d in b {
      assert d in a <==> d in multiset(a);
      assert d in b <==> d in multiset(b);
    }
  }

  /** Documents with different sources keep them apart in any order. */
  lemma DistinctSources(a: seq<Document>, b: seq<Document>)
    requires multiset(a) == multiset(b)
    requires forall i, j | 0 <= i < j < |a| :: a[i].source != a[j].source
    ensures forall i, j | 0 <= i < j < |b| :: b[i].source != b[j].source
  {
    forall i, j | 0 <= i < j < |b| ensures b[i].source != b[j].source {
      SameDocuments(a, b);
      assert b[i] in b && b[j] in b;
      if b[i].source == b[j].source {
        OnceInDistinct(a, b[i], b[j]);
        TwiceInSequence(b, i, j);
        assert false;
      }
    }
  }

  lemma OnceInDistinct(a: seq<Document>, x: Document, y: Document)
    requires x in a && y in a && x.source == y.source
    requires forall i, j | 0 <= i < j < |a| :: a[i].source != a[j].source
    ensures x == y && multiset(a)[x] == 1
  {
    var k :| 0 <= k < |a| && a[k] == x;
    assert a == a[..k] + [a[k]] + a[k + 1..];
    assert x !in a[..k] && x !in a[k + 1..];
  }

  lemma TwiceInSequence(b: seq<Document>, i: nat, j: nat)
    requires i < j < |b| && b[i] == b[j]
    ensures multiset(b)[b[i]] >= 2
  {
    assert b == b[..i] + [b[i]] + b[i + 1..j] + [b[j]] + b[j + 1..];
  }

  lemma {:induction false} RootsFail(fs: FileSystem, order: Order, roots: seq<Root>, p: Progress)
    ensures VisitRoots(fs, order, roots, p).None? <==> exists i :: 0 <= i < |roots| && Unusable(fs, roots[i])
    decreases |roots|
  {
    if roots != [] {
      forall i | 0 <= i < |roots| - 1 ensures roots[1..][i] == roots[i + 1] {
      }
      assert (exists i :: 0 <= i < |roots| && Unusable(fs, roots[i]))
        <==> Unusable(fs, roots[0]) || exists i :: 0 <= i < |roots[1..]| && Unusable(fs, roots[1..][i]) by {
        if i :| 0 <= i < |roots| && Unusable(fs, roots[i]) {
          if i > 0 {
            assert roots[1..][i - 1] == roots[i];
          }
        }
      }
      if roots[0].resolved.Some? {
        if NamesGit(roots[0]) {
          RootsFail(fs, order, roots[1..], p);
        } else {
          var root := roots[0].resolved.value;
          var w := Walk({root}, p.seen, p.documents);
          FailsExactlyOnBroken(fs, order, root, w);
          var v := VisitDirectory(fs, order, root, root, w);
          if v.Visited? {
            RootsFail(fs, order, roots[1..], Progress(v.walk.seen, v.walk.documents, p.roots + [v.tree]));
          }
        }
      }
    }
  }

  /** There is no catalogue exactly when a root is refused or something that matters below one cannot be read. */
  lemma DiscoveryFailsExactly(lower: Lowering, fs: FileSystem, roots: seq<Root>)
    ensures Discover(lower, fs, roots).None? <==> exists i :: 0 <= i < |roots| && Unusable(fs, roots[i])
  {
    RootsFail(fs, (a, b) => TreeLe(lower, fs, a, b), roots, Progress({}, [], []));
  }

  // ---- In plain terms ----

  /**
   The entry leads to a place that belongs to the root: not called .git, inside root and repository, in no
   git directory.
   */
  predicate LeadsInside(fs: FileSystem, root: Path, e: Entry, path: Path) {
    && e.name != ".git" && e.target == Some(path)
    && fs.repository.parts <= path.parts && root.parts <= path.parts
    && ".git" !in path.parts[|fs.repository.parts|..]
  }

  /** What a directory lists: everything in it, if it can be read. */
  lemma DirectoriesList(fs: FileSystem, directory: Path)
    ensures forall entries :: Entries(fs, directory) == Some(entries) <==>
      directory in fs.nodes && fs.nodes[directory] == Directory(Some(entries))
  {
  }

  /** The name of a Markdown file: something, a dot, and the letters md in any case. */
  ghost predicate IsMarkdownName(name: string) {
    exists stem, extension :: stem != "" && name == stem + "." + extension && AsciiLower(extension) == "md"
  }

  lemma MarkdownByName(path: Path)
    ensures IsMarkdown(path) <==> path.parts != [] && IsMarkdownName(path.parts[|path.parts| - 1])
  {
    var name := FileName(path);
    if IsMarkdown(path) {
      var dot := LastDot(name);
      assert name == name[..dot] + "." + name[dot + 1..];
    }
    if path.parts != [] && IsMarkdownName(name) {
      var stem, extension :| stem != "" && name == stem + "." + extension && AsciiLower(extension) == "md";
      MdHasNoDot(extension);
      assert name[|stem|] == '.';
      forall j | |stem| < j < |name| ensures name[j] != '.' {
        assert name[j] == extension[j - |stem| - 1];
      }
      NoDotAfterTheLast(name);
      assert LastDot(name) == |stem| && name[|stem| + 1..] == extension;
    }
  }

  lemma MdHasNoDot(extension: string)
    requires AsciiLower(extension) == "md"
    ensures forall i | 0 <= i < |extension| :: extension[i] != '.'
  {
    forall i | 0 <= i < |extension| ensures extension[i] != '.' {
      AsciiLowerAt(extension, i);
      assert "md"[i] != '.';
    }
  }

  /** A directory that an entry of a reachable directory leads to is reachable. */
  lemma LinksAreFollowed(fs: FileSystem, root: Path, directory: Path, i: int, path: Path)
    requires Reachable(fs, root, directory) && Entries(fs, directory).Some? && 0 <= i < |Entries(fs, directory).value|
    requires LeadsInside(fs, root, Entries(fs, directory).value[i], path)
    requires path in fs.nodes && fs.nodes[path].Directory?
    ensures Reachable(fs, root, path)
  {
    assert Consider(fs, root, Entries(fs, directory).value[i]) == Subdirectory(path);
    forall others: set<Path> | root in others && Closed(fs, root, others) ensures path in others {
      assert directory in others;
    }
  }

  /** An entry of a reachable directory leads to this place. */
  ghost predicate IsLedTo(fs: FileSystem, root: Path, path: Path) {
    exists d, i :: Reachable(fs, root, d) && Entries(fs, d).Some? && 0 <= i < |Entries(fs, d).value|
                   && LeadsInside(fs, root, Entries(fs, d).value[i], path)
  }

  lemma ClosedWithout(fs: FileSystem, root: Path, directories: set<Path>, path: Path)
    requires Closed(fs, root, directories) && (forall d | d in directories :: Reachable(fs, root, d))
    requires !IsLedTo(fs, root, path) || path !in Directories(fs)
    ensures Closed(fs, root, directories - {path})
  {
    forall d, i | d in directories - {path} && Entries(fs, d).Some? && 0 <= i < |Entries(fs, d).value|
      ensures var finding := Consider(fs, root, Entries(fs, d).value[i]);
        finding.Subdirectory? ==> finding.path in directories - {path}
    {
      var e := Entries(fs, d).value[i];
      if Consider(fs, root, e).Subdirectory? {
        assert LeadsInside(fs, root, e, Consider(fs, root, e).path);
      }
    }
  }

  /** And no other: what is reachable is the root, or a directory led to by an entry of something reachable. */
  lemma ReachedByLinks(fs: FileSystem, root: Path, path: Path)
    requires Reachable(fs, root, path) && path != root
    ensures IsLedTo(fs, root, path) && path in Directories(fs)
  {
    var all := {root} + set d | d in Directories(fs) && Reachable(fs, root, d);
    ReachableIsClosed(fs, root, all);
    assert root in all - {path};
    if !IsLedTo(fs, root, path) || path !in Directories(fs) {
      ClosedWithout(fs, root, all, path);
    }
  }

  /**
   A file counts below a root exactly if an entry of a reachable directory leads to it inside, and it is
   Markdown that can be read.
   */
  lemma FoundInPlainTerms(fs: FileSystem, root: Path, source: Path)
    ensures FoundBelow(fs, root, source) <==>
      && source in fs.nodes && fs.nodes[source].Regular? && fs.nodes[source].title.Some? && IsMarkdown(source)
      && IsLedTo(fs, root, source)
  {
    if FoundBelow(fs, root, source) {
      var d, i :| Reachable(fs, root, d) && Entries(fs, d).Some? && 0 <= i < |Entries(fs, d).value|
        && var finding := Consider(fs, root, Entries(fs, d).value[i]);
          finding.Found? && finding.document.source == source;
      assert LeadsInside(fs, root, Entries(fs, d).value[i], source);
    }
    if source in fs.nodes && fs.nodes[source].Regular? && fs.nodes[source].title.Some? && IsMarkdown(source) {
      if d, i :| Reachable(fs, root, d) && Entries(fs, d).Some? && 0 <= i < |Entries(fs, d).value|
                 && LeadsInside(fs, root, Entries(fs, d).value[i], source) {
        assert Consider(fs, root, Entries(fs, d).value[i]) == Found(Document(source, fs.nodes[source].title.value));
      }
    }
  }

  /**
   A directory is unclean exactly if it cannot be read, or an entry of it leads nowhere, or inside to
   something that cannot be read.
   */
  lemma BrokenInPlainTerms(fs: FileSystem, root: Path, e: Entry)
    ensures Consider(fs, root, e).Broken? <==>
      && e.name != ".git"
      && (e.target.None?
          || (LeadsInside(fs, root, e, e.target.value)
              && (e.target.value !in fs.nodes
                  || (fs.nodes[e.target.value] == Regular(None) && IsMarkdown(e.target.value)))))
  {
  }

  // ---- The order ----

  /** Lexicographic order: a prefix comes first, and otherwise the first difference decides. */
  lemma {:induction false} LexicographicMeans(a: string, b: string)
    ensures LexicographicLe(a, b) <==>
      a <= b || exists k :: 0 <= k < |a| && k < |b| && a[..k] == b[..k] && a[k] < b[k]
  {
    if a != [] && b != [] {
      LexicographicMeans(a[1..], b[1..]);
      assert a == [a[0]] + a[1..] && b == [b[0]] + b[1..];
      if a[0] == b[0] {
        if k :| 0 <= k < |a[1..]| && k < |b[1..]| && a[1..][..k] == b[1..][..k] && a[1..][k] < b[1..][k] {
          assert a[..k + 1] == [a[0]] + a[1..][..k] && b[..k + 1] == [b[0]] + b[1..][..k] && a[k + 1] < b[k + 1];
        }
        if k :| 0 <= k < |a| && k < |b| && a[..k] == b[..k] && a[k] < b[k] {
          assert a[1..][..k - 1] == a[..k][1..] && b[1..][..k - 1] == b[..k][1..] && a[1..][k - 1] < b[1..][k - 1];
        }
      } else if a[0] < b[0] {
        assert a[..0] == b[..0];
      } else {
        forall k | 0 < k < |a| && k < |b| ensures a[..k] != b[..k] {
          assert a[..k][0] == a[0] && b[..k][0] == b[0];
        }
      }
    }
  }

  /** The catalogue's list goes by path without regard to case, and then by path; its trees have folders first. */
  lemma CatalogueIsInOrder(lower: Lowering, fs: FileSystem, roots: seq<Root>, i: nat, j: nat)
    requires Discover(lower, fs, roots).Some?
    ensures var catalog := Discover(lower, fs, roots).value;
      && (i < j < |catalog.documents| ==>
            var a, b := PortablePath(fs, catalog.documents[i].source), PortablePath(fs, catalog.documents[j].source);
            LexicographicLe(lower(a), lower(b)) && (lower(a) == lower(b) ==> LexicographicLe(a, b)))
      && (i < j < |catalog.roots| ==>
            var a, b := NameOf(catalog.roots[i]), NameOf(catalog.roots[j]);
            && (catalog.roots[j].Folder? ==> catalog.roots[i].Folder?)
            && (catalog.roots[i].Folder? == catalog.roots[j].Folder? ==>
                  && LexicographicLe(lower(a), lower(b))
                  && (lower(a) == lower(b) ==>
                    LexicographicLe(PathOf(fs, catalog.roots[i]), PathOf(fs, catalog.roots[j])))))
  {
    CatalogueIsComplete(lower, fs, roots, fs.repository);
    var catalog := Discover(lower, fs, roots).value;
    if i < j < |catalog.documents| {
      assert DocumentLe(lower, fs, catalog.documents[i], catalog.documents[j]);
      var a, b := PortablePath(fs, catalog.documents[i].source), PortablePath(fs, catalog.documents[j].source);
      LexicographicTotal(lower(a), lower(a));
    }
    if i < j < |catalog.roots| {
      assert TreeLe(lower, fs, catalog.roots[i], catalog.roots[j]);
      var a := NameOf(catalog.roots[i]);
      LexicographicTotal(lower(a), lower(a));
    }
  }

  // ---- Paths as text ----

  predicate NoSlash(part: string) {
    forall i | 0 <= i < |part| :: part[i] != '/' && part[i] != '\\'
  }

  /** The parts of a configured root are what is between its separators, of either kind. */
  lemma {:induction false} ComponentsOfPart(part: string, separator: char, rest: string)
    requires NoSlash(part) && (separator == '/' || separator == '\\')
    ensures Components(part) == [part]
    ensures Components(part + [separator] + rest) == [part] + Components(rest)
  {
    if part == "" {
      assert part + [separator] + rest == [separator] + rest && ([separator] + rest)[1..] == rest;
    } else {
      assert (part + [separator] + rest)[1..] == part[1..] + [separator] + rest;
      ComponentsOfPart(part[1..], separator, rest);
      assert [part[0]] + part[1..] == part;
    }
  }

  lemma {:induction false} JoinedSplits(parts: seq<string>)
    requires parts != [] && forall i | 0 <= i < |parts| :: NoSlash(parts[i])
    ensures Components(Joined(parts)) == parts
  {
    if |parts| == 1 {
      ComponentsOfPart(parts[0], '/', "");
    } else {
      ComponentsOfPart(parts[0], '/', Joined(parts[1..]));
      JoinedSplits(parts[1..]);
    }
  }

  lemma {:induction false} JoinedHasNoBackslash(parts: seq<string>)
    requires forall i | 0 <= i < |parts| :: NoSlash(parts[i])
    ensures forall i | 0 <= i < |Joined(parts)| :: Joined(parts)[i] != '\\'
  {
    if |parts| > 1 {
      JoinedHasNoBackslash(parts[1..]);
    }
  }

  /** The portable path of a place in the repository is its parts below the repository, and can be taken apart again. */
  lemma PortablePathSplits(fs: FileSystem, path: Path)
    requires fs.repository.parts < path.parts && forall i | 0 <= i < |path.parts| :: NoSlash(path.parts[i])
    ensures Components(PortablePath(fs, path)) == path.parts[|fs.repository.parts|..]
  {
    var parts := path.parts[|fs.repository.parts|..];
    JoinedHasNoBackslash(parts);
    assert Replaced(Joined(parts)) == Joined(parts);
    JoinedSplits(parts);
  }

  lemma {:induction false} NoBackslashes(text: string)
    ensures forall i | 0 <= i < |Replaced(text)| :: Replaced(text)[i] == (if text[i] == '\\' then '/' else text[i])
    ensures |Replaced(text)| == |text|
  {
  }

  /** A configured root is in a git directory exactly if one of its parts is called so. */
  lemma GitIsAPart(parts: seq<string>, resolved: Option<Path>)
    requires parts != [] && forall i | 0 <= i < |parts| :: NoSlash(parts[i])
    ensures NamesGit(Root(Joined(parts), resolved)) <==> ".git" in parts
  {
    JoinedSplits(parts);
  }

  // ---- Every folder is sorted ----

  /** In this tree, and in every folder in it, the children are in order. */
  ghost predicate TreeSorted(order: Order, t: Tree) {
    t.Folder? ==> Sorted(order, t.children) && forall i | 0 <= i < |t.children| :: TreeSorted(order, t.children[i])
  }

  ghost predicate AllTreesSorted(order: Order, ts: seq<Tree>) {
    forall i | 0 <= i < |ts| :: TreeSorted(order, ts[i])
  }

  lemma SortedChildren(order: Order, ts: seq<Tree>)
    requires IsTotalOrder(order) && AllTreesSorted(order, ts)
    ensures Sorted(order, Sort(order, ts)) && AllTreesSorted(order, Sort(order, ts))
  {
    SortSorts(order, ts);
    SortPermutes(order, ts);
    var sorted := Sort(order, ts);
    forall i | 0 <= i < |sorted| ensures TreeSorted(order, sorted[i]) {
      assert sorted[i] in multiset(sorted);
      assert sorted[i] in ts;
    }
  }

  lemma {:induction false} VisitSorts(fs: FileSystem, order: Order, root: Path, directory: Path, w: Walk)
    requires IsTotalOrder(order) && VisitDirectory(fs, order, root, directory, w).Visited?
    ensures TreeSorted(order, VisitDirectory(fs, order, root, directory, w).tree)
    decreases Unvisited(fs, w), 1, 0
  {
    var entries := Entries(fs, directory).value;
    EntriesSort(fs, order, root, entries, w);
    SortedChildren(order, ListEntries(fs, order, root, entries, w).children);
  }

  lemma {:induction false} EntriesSort(fs: FileSystem, order: Order, root: Path, entries: seq<Entry>, w: Walk)
    requires IsTotalOrder(order) && ListEntries(fs, order, root, entries, w).Listed?
    ensures AllTreesSorted(order, ListEntries(fs, order, root, entries, w).children)
    decreases Unvisited(fs, w), 0, |entries|
  {
    if entries != [] {
      var finding := Consider(fs, root, entries[0]);
      if finding.Subdirectory? && finding.path !in w.visited {
        DifferenceStep(Directories(fs), w.visited, finding.path);
        var v := VisitDirectory(fs, order, root, finding.path, Entered(w, finding.path));
        SubsetSize(Directories(fs) - v.walk.visited, Directories(fs) - w.visited);
        VisitSorts(fs, order, root, finding.path, Entered(w, finding.path));
        EntriesSort(fs, order, root, entries[1..], v.walk);
      } else if finding.Found? && finding.document.source !in w.seen {
        EntriesSort(fs, order, root, entries[1..], Noted(w, finding.document));
      } else {
        EntriesSort(fs, order, root, entries[1..], w);
      }
    }
  }

  lemma {:induction false} RootsSort(fs: FileSystem, order: Order, roots: seq<Root>, p: Progress)
    requires IsTotalOrder(order) && AllTreesSorted(order, p.roots) && VisitRoots(fs, order, roots, p).Some?
    ensures AllTreesSorted(order, VisitRoots(fs, order, roots, p).value.roots)
    decreases |roots|
  {
    if roots != [] {
      if NamesGit(roots[0]) {
        RootsSort(fs, order, roots[1..], p);
      } else {
        var root := roots[0].resolved.value;
        var w := Walk({root}, p.seen, p.documents);
        VisitSorts(fs, order, root, root, w);
        var v := VisitDirectory(fs, order, root, root, w);
        RootsSort(fs, order, roots[1..], Progress(v.walk.seen, v.walk.documents, p.roots + [v.tree]));
      }
    }
  }

  /** In every folder of the catalogue, at any depth, folders come first and then the documents by title. */
  lemma EveryFolderIsInOrder(lower: Lowering, fs: FileSystem, roots: seq<Root>)
    requires Discover(lower, fs, roots).Some?
    ensures AllTreesSorted((a, b) => TreeLe(lower, fs, a, b), Discover(lower, fs, roots).value.roots)
  {
    var order := (a, b) => TreeLe(lower, fs, a, b);
    TreesTotallyOrdered(lower, fs);
    RootsSort(fs, order, roots, Progress({}, [], []));
    SortedChildren(order, VisitRoots(fs, order, roots, Progress({}, [], [])).value.roots);
  }

  /**
   What comes first: folders; and among folders, or among documents, the lesser name without regard to case,
   then path.
   */
  lemma OrderInAFolder(lower: Lowering, fs: FileSystem, a: Tree, b: Tree)
    ensures TreeLe(lower, fs, a, b) <==>
      || (a.Folder? && b.Leaf?)
      || (a.Folder? == b.Folder?
          && LexicographicLe(lower(NameOf(a)), lower(NameOf(b)))
          && (lower(NameOf(a)) == lower(NameOf(b)) ==> LexicographicLe(PathOf(fs, a), PathOf(fs, b))))
  {
    LexicographicTotal(lower(NameOf(a)), lower(NameOf(b)));
    LexicographicTotal(lower(NameOf(a)), lower(NameOf(a)));
  }
}
