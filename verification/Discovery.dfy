/**
 Finding the Markdown documents below the configured roots of a repository. Links may lead anywhere, in
 cycles too, so a directory is identified by its canonical path.
 */
module Discovery {
  import opened Text
  import opened SetFacts

  /** A canonical path, part by part. */
  datatype Path = Path(parts: seq<string>)

  /** A name in a directory, and where it leads; None when it cannot be resolved. */
  datatype Entry = Entry(name: string, target: Option<Path>)

  datatype Node =
    | Directory(entries: Option<seq<Entry>>) // None when it cannot be read
    | Regular(title: Option<string>)         // a file; None when it cannot be opened
    | Special

  datatype FileSystem = FileSystem(repository: Path, nodes: map<Path, Node>)

  datatype Document = Document(source: Path, title: string)

  datatype Tree = Folder(source: Path, children: seq<Tree>) | Leaf(document: Document)

  datatype Walk = Walk(visited: set<Path>, seen: set<Path>, documents: seq<Document>)

  datatype Visit = Visited(tree: Tree, walk: Walk) | Failed

  datatype Listing = Listed(children: seq<Tree>, walk: Walk) | ListFailed

  // ---- Paths ----

  predicate Below(root: Path, path: Path) {
    root.parts <= path.parts
  }

  predicate InGit(fs: FileSystem, path: Path)
    requires Below(fs.repository, path)
  {
    ".git" in path.parts[|fs.repository.parts|..]
  }

  predicate InScope(fs: FileSystem, root: Path, path: Path) {
    Below(fs.repository, path) && Below(root, path) && !InGit(fs, path)
  }

  function FileName(path: Path): string {
    if path.parts == [] then "" else path.parts[|path.parts| - 1]
  }

  /** A leading dot starts a name, not an extension. */
  predicate IsMarkdown(path: Path) {
    var name := FileName(path);
    var dot := LastDot(name);
    dot > 0 && AsciiLower(name[dot + 1..]) == "md"
  }

  // ---- One entry ----

  datatype Finding = Broken | Ignored | Subdirectory(path: Path) | Found(document: Document)

  /** What an entry leads to, before asking whether it was seen before. */
  function Consider(fs: FileSystem, root: Path, e: Entry): Finding {
    if e.name == ".git" then Ignored
    else if e.target.None? then Broken
    else
      var path := e.target.value;
      if !InScope(fs, root, path) then Ignored
      else if path !in fs.nodes then Broken
      else
        match fs.nodes[path]
        case Directory(_) => Subdirectory(path)
        case Regular(title) =>
          if !IsMarkdown(path) then Ignored
          else if title.None? then Broken
          else Found(Document(path, title.value))
        case Special => Ignored
  }

  // ---- The search ----

  function Directories(fs: FileSystem): set<Path> {
    set path | path in fs.nodes && fs.nodes[path].Directory?
  }

  function Unvisited(fs: FileSystem, w: Walk): nat {
    |Directories(fs) - w.visited|
  }

  function Prepend(children: seq<Tree>, l: Listing): Listing {
    if l.Listed? then Listed(children + l.children, l.walk) else ListFailed
  }

  function Entries(fs: FileSystem, directory: Path): Option<seq<Entry>> {
    if directory in fs.nodes && fs.nodes[directory].Directory? then fs.nodes[directory].entries else None
  }

  function VisitDirectory(fs: FileSystem, order: Order, root: Path, directory: Path, w: Walk): (v: Visit)
    ensures v.Visited? ==> w.visited <= v.walk.visited
    decreases Unvisited(fs, w), 1, 0
  {
    var entries := Entries(fs, directory);
    if entries.None? then Failed
    else
      var l := ListEntries(fs, order, root, entries.value, w);
      if l.ListFailed? then Failed else Visited(Folder(directory, Sort(order, l.children)), l.walk)
  }

  function ListEntries(fs: FileSystem, order: Order, root: Path, entries: seq<Entry>, w: Walk): (l: Listing)
    ensures l.Listed? ==> w.visited <= l.walk.visited
    decreases Unvisited(fs, w), 0, |entries|
  {
    if entries == [] then Listed([], w)
    else
      match Consider(fs, root, entries[0])
      case Broken => ListFailed
      case Ignored => ListEntries(fs, order, root, entries[1..], w)
      case Subdirectory(path) =>
        if path in w.visited then ListEntries(fs, order, root, entries[1..], w)
        else
          DifferenceStep(Directories(fs), w.visited, path);
          var v := VisitDirectory(fs, order, root, path, Entered(w, path));
          if v.Failed? then ListFailed
          else
            SubsetSize(Directories(fs) - v.walk.visited, Directories(fs) - w.visited);
            Prepend([v.tree], ListEntries(fs, order, root, entries[1..], v.walk))
      case Found(document) =>
        if document.source in w.seen then ListEntries(fs, order, root, entries[1..], w)
        else Prepend([Leaf(document)], ListEntries(fs, order, root, entries[1..], Noted(w, document)))
  }

  function Entered(w: Walk, path: Path): Walk {
    w.(visited := w.visited + {path})
  }

  function Noted(w: Walk, document: Document): Walk {
    w.(seen := w.seen + {document.source}, documents := w.documents + [document])
  }

  // ---- Sorting ----

  /** Whether a tree may stand before another. */
  type Order = (Tree, Tree) -> bool

  /** Puts `t` behind everything that may stand before it: a stable sort. */
  function Insert<T>(order: (T, T) -> bool, ts: seq<T>, t: T): seq<T> {
    if ts == [] || order(ts[|ts| - 1], t) then ts + [t]
    else Insert(order, ts[..|ts| - 1], t) + [ts[|ts| - 1]]
  }

  function Sort<T>(order: (T, T) -> bool, ts: seq<T>): seq<T> {
    if ts == [] then [] else Insert(order, Sort(order, ts[..|ts| - 1]), ts[|ts| - 1])
  }

  /** Lower-casing text, character by character. */
  type Lowering = string -> string

  predicate LexicographicLe(a: string, b: string) {
    a == [] || (b != [] && (a[0] < b[0] || (a[0] == b[0] && LexicographicLe(a[1..], b[1..]))))
  }

  /** By name without regard to case, then by path. */
  predicate DisplayLe(lower: Lowering, leftName: string, leftPath: string, rightName: string, rightPath: string) {
    if lower(leftName) == lower(rightName) then LexicographicLe(leftPath, rightPath)
    else LexicographicLe(lower(leftName), lower(rightName))
  }

  /** The path below the repository, with slashes. */
  function PortablePath(fs: FileSystem, path: Path): string {
    Replaced(Joined(if Below(fs.repository, path) then path.parts[|fs.repository.parts|..] else path.parts))
  }

  function Joined(parts: seq<string>): string {
    if parts == [] then "" else if |parts| == 1 then parts[0] else parts[0] + "/" + Joined(parts[1..])
  }

  function Replaced(text: string): string {
    seq(|text|, i requires 0 <= i < |text| => if text[i] == '\\' then '/' else text[i])
  }

  /** Folders first, then by name or title. */
  predicate TreeLe(lower: Lowering, fs: FileSystem, left: Tree, right: Tree) {
    if left.Folder? != right.Folder? then left.Folder?
    else if left.Folder? then
      DisplayLe(
        lower,
        FileName(left.source), PortablePath(fs, left.source),
        FileName(right.source), PortablePath(fs, right.source))
    else
      DisplayLe(
        lower,
        left.document.title, PortablePath(fs, left.document.source),
        right.document.title, PortablePath(fs, right.document.source))
  }

  predicate DocumentLe(lower: Lowering, fs: FileSystem, left: Document, right: Document) {
    var l, r := PortablePath(fs, left.source), PortablePath(fs, right.source);
    DisplayLe(lower, l, l, r, r)
  }

  // ---- All roots ----

  /** A configured root, and the directory it stands for; None when it is refused. */
  datatype Root = Root(configured: string, resolved: Option<Path>)

  datatype Catalog = Catalog(documents: seq<Document>, roots: seq<Tree>)

  datatype Progress = Progress(seen: set<Path>, documents: seq<Document>, roots: seq<Tree>)

  /** The parts of a configured root. */
  function Components(text: string): (parts: seq<string>)
    ensures parts != []
  {
    if text == "" then [""]
    else
      var rest := Components(text[1..]);
      if text[0] == '/' || text[0] == '\\' then [""] + rest else [[text[0]] + rest[0]] + rest[1..]
  }

  predicate NamesGit(root: Root) {
    ".git" in Components(root.configured)
  }

  function VisitRoots(fs: FileSystem, order: Order, roots: seq<Root>, p: Progress): Option<Progress> {
    if roots == [] then Some(p)
    else if roots[0].resolved.None? then None
    else if NamesGit(roots[0]) then VisitRoots(fs, order, roots[1..], p)
    else
      var root := roots[0].resolved.value;
      var v := VisitDirectory(fs, order, root, root, Walk({root}, p.seen, p.documents));
      if v.Failed? then None
      else VisitRoots(fs, order, roots[1..], Progress(v.walk.seen, v.walk.documents, p.roots + [v.tree]))
  }

  function Discover(lower: Lowering, fs: FileSystem, roots: seq<Root>): Option<Catalog> {
    var p := VisitRoots(fs, (a, b) => TreeLe(lower, fs, a, b), roots, Progress({}, [], []));
    if p.None? then None
    else
      var documents := Sort((a, b) => DocumentLe(lower, fs, a, b), p.value.documents);
      var roots := Sort((a, b) => TreeLe(lower, fs, a, b), p.value.roots);
      Some(Catalog(documents, roots))
  }

  // ---- The search as it runs ----

  lemma PrependTwice(a: seq<Tree>, b: seq<Tree>, l: Listing)
    ensures Prepend(a, Prepend(b, l)) == Prepend(a + b, l)
  {
    if l.Listed? {
      assert a + (b + l.children) == (a + b) + l.children;
    }
  }

  lemma PrependNothing(l: Listing)
    ensures Prepend([], l) == l
  {
    if l.Listed? {
      assert [] + l.children == l.children;
    }
  }

  /** What the search has seen so far; its sets and its list are shared by all the recursive calls. */
  class DiscoveryWalk {
    var visited: set<Path>
    var seen: set<Path>
    var documents: seq<Document>

    constructor ()
      ensures visited == {} && seen == {} && documents == []
    {
      visited, seen, documents := {}, {}, [];
    }

    function State(): Walk
      reads this
    {
      Walk(visited, seen, documents)
    }

    /** The folder of a directory, which has just been entered; None when something cannot be read. */
    method DiscoverDirectory(fs: FileSystem, order: Order, root: Path, directory: Path) returns (tree: Option<Tree>)
      modifies this
      ensures var v := VisitDirectory(fs, order, root, directory, old(State()));
        if v.Failed? then tree == None else tree == Some(v.tree) && State() == v.walk
      decreases Unvisited(fs, State()), 1
    {
      var entries := Entries(fs, directory);
      if entries.None? {
        return None;
      }
      ghost var whole := ListEntries(fs, order, root, entries.value, State());
      var children: seq<Tree> := [];
      PrependNothing(whole);
      for i := 0 to |entries.value|
        invariant whole == Prepend(children, ListEntries(fs, order, root, entries.value[i..], State()))
        invariant Unvisited(fs, State()) <= Unvisited(fs, old(State())) && old(visited) <= visited
      {
        var rest := entries.value[i..];
        assert rest[0] == entries.value[i] && rest[1..] == entries.value[i + 1..];
        var finding := Consider(fs, root, entries.value[i]);
        match finding
        case Broken =>
          return None;
        case Ignored =>
        case Subdirectory(path) =>
          if path !in visited {
            ghost var before := State();
            DifferenceStep(Directories(fs), visited, path);
            visited := visited + {path};
            var tree := DiscoverDirectory(fs, order, root, path);
            if tree.None? {
              return None;
            }
            SubsetSize(Directories(fs) - visited, Directories(fs) - before.visited);
            PrependTwice(children, [tree.value], ListEntries(fs, order, root, rest[1..], State()));
            children := children + [tree.value];
          }
        case Found(document) =>
          if document.source !in seen {
            seen := seen + {document.source};
            documents := documents + [document];
            PrependTwice(children, [Leaf(document)], ListEntries(fs, order, root, rest[1..], State()));
            children := children + [Leaf(document)];
          }
      }
      assert entries.value[|entries.value|..] == [] && children + [] == children;
      tree := Some(Folder(directory, Sort(order, children)));
    }

    method DiscoverDocuments(lower: Lowering, fs: FileSystem, roots: seq<Root>) returns (catalog: Option<Catalog>)
      requires seen == {} && documents == []
      modifies this
      ensures catalog == Discover(lower, fs, roots)
    {
      var order := (a, b) => TreeLe(lower, fs, a, b);
      var trees: seq<Tree> := [];
      for i := 0 to |roots|
        invariant VisitRoots(fs, order, roots, Progress({}, [], []))
          == VisitRoots(fs, order, roots[i..], Progress(seen, documents, trees))
      {
        assert roots[i..][0] == roots[i] && roots[i..][1..] == roots[i + 1..];
        if roots[i].resolved.None? {
          return None;
        }
        if NamesGit(roots[i]) {
          continue;
        }
        visited := {roots[i].resolved.value};
        var tree := DiscoverDirectory(fs, order, roots[i].resolved.value, roots[i].resolved.value);
        if tree.None? {
          return None;
        }
        trees := trees + [tree.value];
      }
      catalog := Some(Catalog(Sort((a, b) => DocumentLe(lower, fs, a, b), documents), Sort(order, trees)));
    }
  }
}
