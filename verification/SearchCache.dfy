/**
 The document search cache: a table of documents by path and a full-text table of search rows by row
 id, kept in step with the catalogue by reconciliation.
 */
module SearchCache {
  import opened Text

  /** A document's path in the repository. */
  datatype Path = Path(text: string)

  const MAX_SQLITE_INTEGER: nat := 0x7FFF_FFFF_FFFF_FFFF

  datatype Frontmatter = ValidFrontmatter | MissingFrontmatter | InvalidFrontmatter(line: nat, message: string)

  datatype Summary = Summary(
    path: Path,
    fileName: string,
    title: string,
    documentId: Option<nat>,
    frontmatter: Frontmatter,
    modifiedAt: int,
    size: nat)

  /** A document's new content; `text` is its decoding, if it is valid UTF-8. */
  datatype Content = Content(summary: Summary, text: Option<string>)

  datatype Row = Row(rowid: nat, summary: Summary, contentHash: Option<string>, body: string)

  datatype SearchRow = SearchRow(path: Path, title: string, body: string)

  datatype Delta = Delta(toIndex: seq<Path>, deleted: set<Path>)

  datatype CacheError = SizeOverflow(size: nat) | InvalidUtf8(path: Path) | IncompleteBatch(reason: string, path: Path)
    | Sqlite

  datatype Result<T> = Ok(value: T) | Err(error: CacheError)

  /** The content hash and the plain text of a decoded document. */
  datatype Reader = Reader(hash: string -> string, plain: string -> string)

  // ---- Tables ----

  type Documents = map<Path, Row>
  type SearchRows = map<nat, SearchRow>

  /** Rows are filed under their own path, each with a row id of its own. */
  ghost predicate Filed(documents: Documents) {
    && (forall p | p in documents :: documents[p].summary.path == p)
    && (forall p, q | p in documents && q in documents && documents[p].rowid == documents[q].rowid :: p == q)
  }

  function SearchRowOf(row: Row): SearchRow {
    SearchRow(row.summary.path, row.summary.title, row.body)
  }

  /** Search rows and documents are in one-to-one agreement. */
  ghost predicate Agreed(documents: Documents, search: SearchRows) {
    && Filed(documents)
    && (forall p | p in documents ::
      documents[p].rowid in search && search[documents[p].rowid] == SearchRowOf(documents[p]))
    && (forall r | r in search :: search[r].path in documents && documents[search[r].path].rowid == r)
  }

  // ---- Planning ----

  predicate Fits(s: Summary) {
    s.size <= MAX_SQLITE_INTEGER
  }

  predicate AllFit(summaries: seq<Summary>) {
    forall i | 0 <= i < |summaries| :: Fits(summaries[i])
  }

  predicate IsUnchanged(documents: Documents, s: Summary) {
    s.path in documents && documents[s.path].summary == s
  }

  function ToIndex(documents: Documents, summaries: seq<Summary>): seq<Path> {
    if summaries == [] then []
    else
      var n := |summaries| - 1;
      ToIndex(documents, summaries[..n]) + if IsUnchanged(documents, summaries[n]) then [] else [summaries[n].path]
  }

  function Paths(summaries: seq<Summary>): set<Path> {
    set s | s in summaries :: s.path
  }

  function Plan(documents: Documents, summaries: seq<Summary>): Delta {
    Delta(ToIndex(documents, summaries), documents.Keys - Paths(summaries))
  }

  lemma {:induction false} ToIndexContents(documents: Documents, summaries: seq<Summary>, p: Path)
    ensures p in ToIndex(documents, summaries) <==>
            exists i :: 0 <= i < |summaries| && summaries[i].path == p && !IsUnchanged(documents, summaries[i])
  {
    if summaries != [] {
      var n := |summaries| - 1;
      ToIndexContents(documents, summaries[..n], p);
      assert forall i | 0 <= i < n :: summaries[..n][i] == summaries[i];
      if p in ToIndex(documents, summaries[..n]) {
        var i :| 0 <= i < n && summaries[..n][i].path == p && !IsUnchanged(documents, summaries[..n][i]);
        assert summaries[i].path == p;
      }
    }
  }

  // ---- What a batch must be ----

  predicate DistinctPaths(summaries: seq<Summary>) {
    forall i, j | 0 <= i < j < |summaries| :: summaries[i].path != summaries[j].path
  }

  /** One content per path to index, for the catalogue's own summary, in valid UTF-8, and no other. */
  ghost predicate CompleteBatch(documents: Documents, summaries: seq<Summary>, contents: seq<Content>) {
    && DistinctPaths(summaries)
    && (forall i | 0 <= i < |contents| ::
          contents[i].summary in summaries && !IsUnchanged(documents, contents[i].summary) && contents[i].text.Some?)
    && (forall i, j | 0 <= i < j < |contents| :: contents[i].summary.path != contents[j].summary.path)
    && (forall i | 0 <= i < |summaries| && !IsUnchanged(documents, summaries[i]) ::
          exists j :: 0 <= j < |contents| && contents[j].summary == summaries[i])
  }

  /**
   The tables a reconciliation must leave: exactly the given summaries, each with the supplied text
   or, if it was unchanged, with what it had; documents that stay keep their row id.
   */
  ghost predicate Reconciled(
      before: Documents, after: Documents, summaries: seq<Summary>, contents: seq<Content>, reader: Reader) {
    && after.Keys == Paths(summaries)
    && (forall i | 0 <= i < |summaries| ::
      summaries[i].path in after && after[summaries[i].path].summary == summaries[i])
    && (forall j | 0 <= j < |contents| && contents[j].text.Some? && contents[j].summary.path in after ::
          var row := after[contents[j].summary.path];
          row.contentHash == Some(reader.hash(contents[j].text.value))
            && row.body == reader.plain(contents[j].text.value))
    && (forall i | 0 <= i < |summaries| && IsUnchanged(before, summaries[i]) ::
      after[summaries[i].path] == before[summaries[i].path])
    && (forall p | p in after && p in before :: after[p].rowid == before[p].rowid)
  }

  /** After a reconciliation, planning again with the same summaries finds nothing to do. */
  lemma {:induction false} PlanAfterReconcileIsEmpty(
      before: Documents, after: Documents, summaries: seq<Summary>, contents: seq<Content>, reader: Reader)
    requires Filed(after)
    requires after.Keys == Paths(summaries) && forall j | 0 <= j < |contents| :: contents[j].summary in summaries
    requires Reconciled(before, after, summaries, contents, reader)
    ensures Plan(after, summaries) == Delta([], {})
  {
    forall i | 0 <= i < |summaries| ensures IsUnchanged(after, summaries[i]) {
      assert summaries[i].path in Paths(summaries);
    }
    NothingToIndex(after, summaries);
  }

  lemma {:induction false} NothingToIndex(documents: Documents, summaries: seq<Summary>)
    requires forall i | 0 <= i < |summaries| :: IsUnchanged(documents, summaries[i])
    ensures ToIndex(documents, summaries) == []
  {
    if summaries != [] {
      NothingToIndex(documents, summaries[..|summaries| - 1]);
    }
  }

  // ---- The cache ----

  datatype Prepared = Prepared(hash: string, body: string)

  /** Both tables and the next unused row id; a transaction works on a copy of them. */
  datatype Tables = Tables(documents: Documents, search: SearchRows, nextRowid: nat)

  ghost predicate Sound(t: Tables) {
    Agreed(t.documents, t.search) && forall p | p in t.documents :: t.documents[p].rowid < t.nextRowid
  }

  /** Store a summary with its new content, replacing or creating its row and its search row. */
  function WithContent(t: Tables, s: Summary, c: Prepared): Tables {
    var known := s.path in t.documents;
    var rowid := if known then t.documents[s.path].rowid else t.nextRowid;
    var row := Row(rowid, s, Some(c.hash), c.body);
    var next := if known then t.nextRowid else t.nextRowid + 1;
    Tables(t.documents[s.path := row], t.search[rowid := SearchRowOf(row)], next)
  }

  lemma WithContentSound(t: Tables, s: Summary, c: Prepared)
    requires Sound(t)
    ensures Sound(WithContent(t, s, c))
  {
  }

  /** The content is as stored. */
  predicate SameText(documents: Documents, c: Content, reader: Reader)
    requires c.text.Some?
  {
    c.summary.path in documents && documents[c.summary.path].contentHash == Some(reader.hash(c.text.value))
  }

  /** The content is as stored but the title is not: the search row will keep the old one. */
  predicate KeepsStaleTitle(documents: Documents, c: Content, reader: Reader)
    requires c.text.Some?
  {
    && SameText(documents, c, reader)
    && documents[c.summary.path].summary.title != c.summary.title
  }

  lemma MetadataOnlySound(t: Tables, s: Summary)
    requires Sound(t) && s.path in t.documents
    ensures Sound(t.(documents := t.documents[s.path := t.documents[s.path].(summary := s)]))
       <==> t.documents[s.path].summary.title == s.title
  {
    var n := t.(documents := t.documents[s.path := t.documents[s.path].(summary := s)]);
    if t.documents[s.path].summary.title != s.title {
      assert n.search[n.documents[s.path].rowid] != SearchRowOf(n.documents[s.path]);
    }
  }

  /** Remove documents together with their search rows. */
  function WithoutAll(t: Tables, deleted: set<Path>): Tables {
    Tables(t.documents - deleted,
           t.search - set p | p in deleted && p in t.documents :: t.documents[p].rowid,
           t.nextRowid)
  }

  lemma WithoutAllStep(t: Tables, deleted: set<Path>, p: Path)
    requires p in t.documents && p !in deleted
    ensures var n := WithoutAll(t, deleted);
      && p in n.documents
      && n.(documents := n.documents - {p}, search := n.search - {n.documents[p].rowid}) == WithoutAll(t, deleted + {p})
  {
  }

  lemma WithoutAllSound(t: Tables, deleted: set<Path>)
    requires Sound(t)
    ensures Sound(WithoutAll(t, deleted))
  {
  }

  class DocumentCache {
    var tables: Tables

    constructor ()
      ensures Sound(tables) && tables.documents == map[]
    {
      tables := Tables(map[], map[], 1);
    }

    method PlanReconcile(summaries: seq<Summary>) returns (r: Result<Delta>)
      ensures r.Ok? <==> AllFit(summaries)
      ensures r.Ok? ==> r.value == Plan(tables.documents, summaries)
    {
      var toIndex, current := [], {};
      for i := 0 to |summaries|
        invariant toIndex == ToIndex(tables.documents, summaries[..i])
        invariant current == Paths(summaries[..i])
        invariant AllFit(summaries[..i])
      {
        var s := summaries[i];
        if !Fits(s) {
          return Err(SizeOverflow(s.size));
        }
        assert summaries[..i + 1] == summaries[..i] + [s];
        assert summaries[..i + 1][..i] == summaries[..i];
        if !IsUnchanged(tables.documents, s) {
          toIndex := toIndex + [s.path];
        }
        current := current + {s.path};
      }
      assert summaries[..|summaries|] == summaries;
      return Ok(Delta(toIndex, tables.documents.Keys - current));
    }

    /** The catalogue's summaries by path, unless two share a path. */
    static method IndexSummaries(summaries: seq<Summary>) returns (r: Result<map<Path, Summary>>)
      ensures r.Ok? <==> DistinctPaths(summaries)
      ensures r.Ok? ==> Indexes(r.value, summaries)
    {
      var byPath: map<Path, Summary> := map[];
      for i := 0 to |summaries|
        invariant DistinctPaths(summaries[..i])
        invariant forall k | 0 <= k < i :: summaries[k].path in byPath && byPath[summaries[k].path] == summaries[k]
        invariant forall p | p in byPath :: exists k :: 0 <= k < i && summaries[k].path == p
      {
        if summaries[i].path in byPath {
          return Err(IncompleteBatch("duplicate summary", summaries[i].path));
        }
        byPath := byPath[summaries[i].path := summaries[i]];
      }
      return Ok(byPath);
    }

    /** The contents' hashes and texts by path, unless one is unexpected, doubled, unreadable or missing. */
    static method PrepareContents(
        byPath: map<Path, Summary>, toIndex: seq<Path>, contents: seq<Content>, reader: Reader)
      returns (r: Result<map<Path, Prepared>>)
      ensures r.Ok? <==> Matches(byPath, toIndex, contents)
      ensures r.Ok? ==> PreparedFor(contents, r.value, reader)
    {
      var prepared: map<Path, Prepared> := map[];
      for i := 0 to |contents|
        invariant forall j | 0 <= j < i ::
          IsExpected(contents[j], byPath, toIndex) && IsPrepared(contents[j], prepared, reader)
        invariant forall p | p in prepared :: exists j :: 0 <= j < i && contents[j].summary.path == p
        invariant forall k, j | 0 <= k < j < i :: contents[k].summary.path != contents[j].summary.path
      {
        var path := contents[i].summary.path;
        if path !in byPath {
          return Err(IncompleteBatch("content supplied for unknown path", path));
        }
        if byPath[path] != contents[i].summary {
          return Err(IncompleteBatch("content metadata does not match", path));
        }
        if path !in toIndex {
          return Err(IncompleteBatch("content supplied for unchanged path", path));
        }
        if path in prepared {
          return Err(IncompleteBatch("duplicate content", path));
        }
        if contents[i].text.None? {
          return Err(InvalidUtf8(path));
        }
        prepared := prepared[path := Prepared(reader.hash(contents[i].text.value),
          reader.plain(contents[i].text.value))];
      }
      var missing := FindMissing(toIndex, prepared);
      if missing.Some? {
        assert forall j | 0 <= j < |contents| ::
          IsPrepared(contents[j], prepared, reader) && contents[j].summary.path != missing.value;
        return Err(IncompleteBatch("missing content", missing.value));
      }
      return Ok(prepared);
    }

    static method FindMissing(toIndex: seq<Path>, prepared: map<Path, Prepared>) returns (missing: Option<Path>)
      ensures missing.Some? ==> missing.value in toIndex && missing.value !in prepared
      ensures missing.None? ==> forall p | p in toIndex :: p in prepared
    {
      for k := 0 to |toIndex|
        invariant forall j | 0 <= j < k :: toIndex[j] in prepared
      {
        if toIndex[k] !in prepared {
          return Some(toIndex[k]);
        }
      }
      return None;
    }

    /** Write every summary of the batch into a copy of the tables. */
    static method WriteBatch(before: Tables, summaries: seq<Summary>, prepared: map<Path, Prepared>) returns (t: Tables)
      requires Writable(before.documents, summaries, prepared)
      ensures t == WriteAll(before, summaries, prepared)
    {
      t := before;
      for i := 0 to |summaries|
        invariant t == WriteAll(before, summaries[..i], prepared)
      {
        assert summaries[..i + 1][..i] == summaries[..i];
        var s := summaries[i];
        WriteAllKeys(before, summaries[..i], prepared);
        if s.path in prepared {
          t := WithContent(t, s, prepared[s.path]);
        } else {
          t := t.(documents := t.documents[s.path := t.documents[s.path].(summary := s)]);
        }
      }
      assert summaries[..|summaries|] == summaries;
    }

    static method DeletePaths(before: Tables, deleted: set<Path>) returns (t: Tables)
      requires deleted <= before.documents.Keys && Filed(before.documents)
      ensures t == WithoutAll(before, deleted)
    {
      t := before;
      var left := deleted;
      while left != {}
        invariant left <= deleted
        invariant t == WithoutAll(before, deleted - left)
      {
        var p :| p in left;
        WithoutAllStep(before, deleted - left, p);
        assert deleted - left + {p} == deleted - (left - {p});
        t := t.(documents := t.documents - {p}, search := t.search - {t.documents[p].rowid});
        left := left - {p};
      }
    }

    /** Everything that can be refused before the tables are touched. */
    method CheckBatch(summaries: seq<Summary>, contents: seq<Content>, reader: Reader)
      returns (r: Result<(map<Path, Prepared>, set<Path>)>)
      ensures r.Ok? <==> AllFit(summaries) && CompleteBatch(tables.documents, summaries, contents)
      ensures r.Ok? ==>
        PreparedFor(contents, r.value.0, reader) && r.value.1 == tables.documents.Keys - Paths(summaries)
    {
      var plan := PlanReconcile(summaries);
      if plan.Err? {
        return Err(plan.error);
      }
      var indexed := IndexSummaries(summaries);
      if indexed.Err? {
        return Err(indexed.error);
      }
      CompleteBatchMatches(tables.documents, summaries, indexed.value, contents);
      var prepared := PrepareContents(indexed.value, plan.value.toIndex, contents, reader);
      if prepared.Err? {
        return Err(prepared.error);
      }
      return Ok((prepared.value, plan.value.deleted));
    }

    /**
     Bring both tables in step with the catalogue, in one transaction; `committed` is the database's
     answer. It succeeds exactly for a complete batch, and an error changes neither table.
     */
    method ApplyReconcile(summaries: seq<Summary>, contents: seq<Content>, reader: Reader, committed: bool)
      returns (r: Result<()>)
      requires Sound(tables)
      modifies this
      ensures Sound(tables)
      ensures r.Ok? <==> committed && AllFit(summaries) && CompleteBatch(old(tables.documents), summaries, contents)
      ensures r.Ok? ==> Reconciled(old(tables.documents), tables.documents, summaries, contents, reader)
      ensures r.Ok? ==> Plan(tables.documents, summaries) == Delta([], {})
      ensures r.Err? ==> tables == old(tables)
    {
      var checked := CheckBatch(summaries, contents, reader);
      if checked.Err? {
        return Err(checked.error);
      }
      BatchReconciles(tables, summaries, contents, checked.value.0, reader);
      var t := WriteBatch(tables, summaries, checked.value.0);
      WriteAllKeys(tables, summaries, checked.value.0);
      WriteAllSound(tables, summaries, checked.value.0);
      t := DeletePaths(t, checked.value.1);
      if !committed {
        return Err(Sqlite);
      }
      tables := t;
      return Ok(());
    }

    /** Drop the documents the catalogue no longer has and report what must be indexed again. */
    method ReconcileMetadata(summaries: seq<Summary>) returns (r: Result<Delta>)
      requires Sound(tables)
      modifies this
      ensures Sound(tables)
      ensures r.Ok? <==> AllFit(summaries)
      ensures r.Ok? ==> r.value == Plan(old(tables.documents), summaries)
      ensures r.Ok? ==> tables.documents == old(tables.documents) - r.value.deleted
      ensures r.Err? ==> tables == old(tables)
    {
      r := PlanReconcile(summaries);
      if r.Ok? {
        WithoutAllSound(tables, r.value.deleted);
        var t := DeletePaths(tables, r.value.deleted);
        tables := t;
      }
    }

    /** Store one document's content; an error changes nothing. */
    method UpsertContent(c: Content, reader: Reader) returns (r: Result<()>)
      modifies this
      ensures r.Ok? <==> c.text.Some? && Fits(c.summary)
      ensures r.Err? ==> tables == old(tables)
      ensures r.Ok? ==> tables == Upserted(old(tables), c, reader)
    {
      if c.text.None? {
        return Err(InvalidUtf8(c.summary.path));
      }
      if !Fits(c.summary) {
        return Err(SizeOverflow(c.summary.size));
      }
      var path, hash := c.summary.path, reader.hash(c.text.value);
      if path in tables.documents && tables.documents[path].contentHash == Some(hash) {
        tables := tables.(documents := tables.documents[path := tables.documents[path].(summary := c.summary)]);
      } else {
        tables := WithContent(tables, c.summary, Prepared(hash, reader.plain(c.text.value)));
      }
      return Ok(());
    }
  }

  /** When the hash is the stored one only the metadata is written. */
  function Upserted(t: Tables, c: Content, reader: Reader): Tables
    requires c.text.Some?
  {
    var path := c.summary.path;
    if SameText(t.documents, c, reader) then
      t.(documents := t.documents[path := t.documents[path].(summary := c.summary)])
    else WithContent(t, c.summary, Prepared(reader.hash(c.text.value), reader.plain(c.text.value)))
  }

  /**
   The document's row has the summary and the text's hash, and the text itself when it is new; all other rows
   stay.
   */
  lemma UpsertStores(t: Tables, c: Content, reader: Reader)
    requires Sound(t) && c.text.Some?
    ensures var after, path := Upserted(t, c, reader), c.summary.path;
      && after.documents.Keys == t.documents.Keys + {path}
      && after.documents[path].summary == c.summary
      && after.documents[path].contentHash == Some(reader.hash(c.text.value))
      && after.documents[path].body
        == (if SameText(t.documents, c, reader) then t.documents[path].body else reader.plain(c.text.value))
      && (path in t.documents ==> after.documents[path].rowid == t.documents[path].rowid)
      && (forall p | p in t.documents && p != path :: after.documents[p] == t.documents[p])
      && (forall id | id in t.search && id != after.documents[path].rowid ::
        id in after.search && after.search[id] == t.search[id])
  {
  }

  /**
   With the stored hash the search row keeps its title, so the tables still agree exactly if the title is the
   same.
   */
  lemma UpsertAgreesUnlessRetitled(t: Tables, c: Content, reader: Reader)
    requires Sound(t) && c.text.Some?
    ensures Sound(Upserted(t, c, reader)) <==> !KeepsStaleTitle(t.documents, c, reader)
  {
    if SameText(t.documents, c, reader) {
      MetadataOnlySound(t, c.summary);
    } else {
      WithContentSound(t, c.summary, Prepared(reader.hash(c.text.value), reader.plain(c.text.value)));
    }
  }

  lemma CompleteBatchWritable(
      documents: Documents, summaries: seq<Summary>, contents: seq<Content>, prepared: map<Path, Prepared>,
      reader: Reader)
    requires CompleteBatch(documents, summaries, contents) && PreparedFor(contents, prepared, reader)
    ensures Writable(documents, summaries, prepared)
    ensures forall i | 0 <= i < |summaries| && IsUnchanged(documents, summaries[i]) :: summaries[i].path !in prepared
  {
    forall i | 0 <= i < |summaries| && summaries[i].path in prepared ensures !IsUnchanged(documents, summaries[i]) {
      var j :| 0 <= j < |contents| && contents[j].summary.path == summaries[i].path;
      assert contents[j].summary in summaries;
    }
  }

  /** Writing a complete batch and deleting the rest leaves what a reconciliation must. */
  lemma BatchRows(
      before: Documents, written: Documents, after: Documents, summaries: seq<Summary>,
      contents: seq<Content>, prepared: map<Path, Prepared>, reader: Reader)
    requires CompleteBatch(before, summaries, contents) && PreparedFor(contents, prepared, reader)
    requires forall i | 0 <= i < |summaries| :: WrittenRow(before, written, summaries[i], prepared)
    requires forall p | p in before :: p in written && written[p].rowid == before[p].rowid
    requires after == written - (before.Keys - Paths(summaries)) && written.Keys == before.Keys + Paths(summaries)
    ensures Reconciled(before, after, summaries, contents, reader)
  {
    CompleteBatchWritable(before, summaries, contents, prepared, reader);
    assert forall i | 0 <= i < |summaries| ::
      summaries[i].path in Paths(summaries) && after[summaries[i].path] == written[summaries[i].path];
    forall j | 0 <= j < |contents|
      ensures contents[j].summary.path in after
      ensures var row := after[contents[j].summary.path];
        row.contentHash == Some(prepared[row.summary.path].hash) && row.body == prepared[row.summary.path].body
    {
      assert contents[j].summary in summaries && IsPrepared(contents[j], prepared, reader);
    }
  }

  lemma BatchReconciles(
      before: Tables, summaries: seq<Summary>, contents: seq<Content>, prepared: map<Path, Prepared>,
      reader: Reader)
    requires Sound(before) && CompleteBatch(before.documents, summaries, contents)
    requires PreparedFor(contents, prepared, reader)
    ensures Writable(before.documents, summaries, prepared)
    ensures var after := WithoutAll(WriteAll(before, summaries, prepared), before.documents.Keys - Paths(summaries));
      && Sound(after)
      && Reconciled(before.documents, after.documents, summaries, contents, reader)
      && Plan(after.documents, summaries) == Delta([], {})
  {
    CompleteBatchWritable(before.documents, summaries, contents, prepared, reader);
    var written := WriteAll(before, summaries, prepared);
    var after := WithoutAll(written, before.documents.Keys - Paths(summaries));
    WriteAllKeys(before, summaries, prepared);
    WriteAllRows(before, summaries, prepared);
    BatchRows(before.documents, written.documents, after.documents, summaries, contents, prepared, reader);
    WriteAllSound(before, summaries, prepared);
    WithoutAllSound(written, before.documents.Keys - Paths(summaries));
    PlanAfterReconcileIsEmpty(before.documents, after.documents, summaries, contents, reader);
  }

  // ---- Checking a batch ----

  ghost predicate IsExpected(c: Content, byPath: map<Path, Summary>, toIndex: seq<Path>) {
    c.summary.path in byPath && byPath[c.summary.path] == c.summary && c.summary.path in toIndex && c.text.Some?
  }

  ghost predicate IsPrepared(c: Content, prepared: map<Path, Prepared>, reader: Reader) {
    && c.text.Some? && c.summary.path in prepared
    && prepared[c.summary.path] == Prepared(reader.hash(c.text.value), reader.plain(c.text.value))
  }

  /** The prepared contents are those of the batch and no others. */
  ghost predicate PreparedFor(contents: seq<Content>, prepared: map<Path, Prepared>, reader: Reader) {
    && (forall j | 0 <= j < |contents| :: IsPrepared(contents[j], prepared, reader))
    && (forall p | p in prepared :: exists j :: 0 <= j < |contents| && contents[j].summary.path == p)
  }

  ghost predicate Matches(byPath: map<Path, Summary>, toIndex: seq<Path>, contents: seq<Content>) {
    && (forall j | 0 <= j < |contents| :: IsExpected(contents[j], byPath, toIndex))
    && (forall i, j | 0 <= i < j < |contents| :: contents[i].summary.path != contents[j].summary.path)
    && (forall p | p in toIndex :: exists j :: 0 <= j < |contents| && contents[j].summary.path == p)
  }

  ghost predicate Indexes(byPath: map<Path, Summary>, summaries: seq<Summary>) {
    forall p, s :: (p in byPath && byPath[p] == s) <==> (s in summaries && s.path == p)
  }

  lemma CompleteBatchMatches(
      documents: Documents, summaries: seq<Summary>, byPath: map<Path, Summary>, contents: seq<Content>)
    requires DistinctPaths(summaries) && Indexes(byPath, summaries)
    ensures Matches(byPath, ToIndex(documents, summaries), contents) <==> CompleteBatch(documents, summaries, contents)
  {
    ToIndexIsChanged(documents, summaries);
    var toIndex := ToIndex(documents, summaries);
    forall c: Content | c.text.Some?
      ensures IsExpected(c, byPath, toIndex) <==> c.summary in summaries && !IsUnchanged(documents, c.summary)
    {
      if c.summary in summaries {
        assert c.summary.path in byPath && byPath[c.summary.path] == c.summary;
      }
    }
    if Matches(byPath, toIndex, contents) {
      forall i | 0 <= i < |summaries| && !IsUnchanged(documents, summaries[i])
        ensures exists j :: 0 <= j < |contents| && contents[j].summary == summaries[i]
      {
        assert summaries[i].path in toIndex;
        var j :| 0 <= j < |contents| && contents[j].summary.path == summaries[i].path;
        assert byPath[summaries[i].path] == summaries[i];
      }
    }
  }

  // ---- Writing a batch ----

  function WriteOne(t: Tables, s: Summary, prepared: map<Path, Prepared>): Tables
    requires s.path in prepared || s.path in t.documents
  {
    if s.path in prepared then WithContent(t, s, prepared[s.path])
    else t.(documents := t.documents[s.path := t.documents[s.path].(summary := s)])
  }

  /** Every summary has new content or is unchanged. */
  predicate Writable(documents: Documents, summaries: seq<Summary>, prepared: map<Path, Prepared>) {
    forall i | 0 <= i < |summaries| :: summaries[i].path in prepared || IsUnchanged(documents, summaries[i])
  }

  function WriteAll(t: Tables, summaries: seq<Summary>, prepared: map<Path, Prepared>): (r: Tables)
    requires Writable(t.documents, summaries, prepared)
    ensures t.documents.Keys <= r.documents.Keys
  {
    if summaries == [] then t
    else WriteOne(WriteAll(t, summaries[..|summaries| - 1], prepared), summaries[|summaries| - 1], prepared)
  }

  lemma {:induction false} WriteAllKeys(t: Tables, summaries: seq<Summary>, prepared: map<Path, Prepared>)
    requires Writable(t.documents, summaries, prepared)
    ensures WriteAll(t, summaries, prepared).documents.Keys == t.documents.Keys + Paths(summaries)
  {
    if summaries != [] {
      var n := |summaries| - 1;
      WriteAllKeys(t, summaries[..n], prepared);
      assert summaries == summaries[..n] + [summaries[n]];
    }
  }

  /** Writing one summary touches no other document and keeps the row's id. */
  lemma WriteOneKeeps(t: Tables, s: Summary, prepared: map<Path, Prepared>, p: Path)
    requires s.path in prepared || s.path in t.documents
    requires p in t.documents
    ensures var r := WriteOne(t, s, prepared).documents;
      p in r && r[p].rowid == t.documents[p].rowid && (p != s.path ==> r[p] == t.documents[p])
  {
  }

  lemma {:induction false} WriteAllKeeps(t: Tables, summaries: seq<Summary>, prepared: map<Path, Prepared>, p: Path)
    requires Writable(t.documents, summaries, prepared) && p in t.documents
    ensures var r := WriteAll(t, summaries, prepared).documents;
      && r[p].rowid == t.documents[p].rowid
      && ((forall i | 0 <= i < |summaries| :: summaries[i].path != p) ==> r[p] == t.documents[p])
  {
    if summaries != [] {
      var n := |summaries| - 1;
      WriteAllKeeps(t, summaries[..n], prepared, p);
      assert forall i | 0 <= i < n :: summaries[..n][i] == summaries[i];
      WriteOneKeeps(WriteAll(t, summaries[..n], prepared), summaries[n], prepared, p);
    }
  }

  lemma {:induction false} WriteAllWrites(t: Tables, summaries: seq<Summary>, prepared: map<Path, Prepared>, i: nat)
    requires DistinctPaths(summaries) && i < |summaries|
    requires Writable(t.documents, summaries, prepared)
    ensures WrittenRow(t.documents, WriteAll(t, summaries, prepared).documents, summaries[i], prepared)
  {
    var n := |summaries| - 1;
    var r, s := WriteAll(t, summaries[..n], prepared), summaries[n];
    if i < n {
      WriteAllWrites(t, summaries[..n], prepared, i);
      assert summaries[..n][i] == summaries[i] && summaries[i].path != s.path;
      WriteOneKeeps(r, s, prepared, summaries[i].path);
    } else if s.path in t.documents {
      WriteAllKeeps(t, summaries[..n], prepared, s.path);
      assert r.documents[s.path] == t.documents[s.path];
    }
  }

  lemma WriteAllRows(t: Tables, summaries: seq<Summary>, prepared: map<Path, Prepared>)
    requires DistinctPaths(summaries)
    requires Writable(t.documents, summaries, prepared)
    ensures var r := WriteAll(t, summaries, prepared).documents;
      && (forall p | p in t.documents :: r[p].rowid == t.documents[p].rowid)
      && (forall p | p in t.documents && p !in Paths(summaries) :: r[p] == t.documents[p])
      && (forall i | 0 <= i < |summaries| :: WrittenRow(t.documents, r, summaries[i], prepared))
  {
    var r := WriteAll(t, summaries, prepared).documents;
    forall p | p in t.documents
      ensures r[p].rowid == t.documents[p].rowid && (p !in Paths(summaries) ==> r[p] == t.documents[p])
    {
      WriteAllKeeps(t, summaries, prepared, p);
    }
    forall i | 0 <= i < |summaries| ensures WrittenRow(t.documents, r, summaries[i], prepared) {
      WriteAllWrites(t, summaries, prepared, i);
    }
  }

  lemma {:induction false} WriteAllSound(t: Tables, summaries: seq<Summary>, prepared: map<Path, Prepared>)
    requires Sound(t) && DistinctPaths(summaries)
    requires Writable(t.documents, summaries, prepared)
    ensures Sound(WriteAll(t, summaries, prepared))
  {
    if summaries != [] {
      var n := |summaries| - 1;
      var s := summaries[n];
      var r := WriteAll(t, summaries[..n], prepared);
      WriteAllSound(t, summaries[..n], prepared);
      if s.path in prepared {
        WithContentSound(r, s, prepared[s.path]);
      } else {
        WriteAllRows(t, summaries[..n], prepared);
        assert s.path !in Paths(summaries[..n]);
        assert r.documents[s.path := r.documents[s.path]] == r.documents;
      }
    }
  }

  /** The row of a written summary: the prepared content, or what an unchanged document had. */
  ghost predicate WrittenRow(before: Documents, after: Documents, s: Summary, prepared: map<Path, Prepared>) {
    && s.path in after
    && after[s.path].summary == s
    && (if s.path in prepared
        then after[s.path].contentHash == Some(prepared[s.path].hash) && after[s.path].body == prepared[s.path].body
        else s.path in before && after[s.path] == before[s.path])
  }

  lemma ToIndexIsChanged(documents: Documents, summaries: seq<Summary>)
    ensures forall p :: p in ToIndex(documents, summaries) <==>
            exists i :: 0 <= i < |summaries| && summaries[i].path == p && !IsUnchanged(documents, summaries[i])
  {
    forall p ensures p in ToIndex(documents, summaries) <==>
            exists i :: 0 <= i < |summaries| && summaries[i].path == p && !IsUnchanged(documents, summaries[i]) {
      ToIndexContents(documents, summaries, p);
    }
  }

  /**
   Sound tables: every document has a search row with its path, title and text, and every search row is some
   document's.
   */
  lemma SearchRowsTellTheDocuments(t: Tables)
    requires Sound(t)
    ensures forall p | p in t.documents ::
      var row := t.documents[p];
      && row.rowid in t.search
      && t.search[row.rowid].path == p
      && t.search[row.rowid].title == row.summary.title
      && t.search[row.rowid].body == row.body
    ensures forall id | id in t.search :: exists p :: p in t.documents && t.documents[p].rowid == id
  {
    forall id | id in t.search ensures exists p :: p in t.documents && t.documents[p].rowid == id {
      assert t.search[id].path in t.documents;
    }
  }

  /** A size fits if it is a signed 64-bit number. */
  lemma FitsIsSigned64(s: Summary)
    ensures Fits(s) <==> s.size < 0x8000_0000_0000_0000
  {
  }

  /** What a plan deletes is what the catalogue no longer names. */
  lemma PlanDeletesTheVanished(documents: Documents, summaries: seq<Summary>, p: Path)
    ensures p in Plan(documents, summaries).deleted
      <==> p in documents && forall i | 0 <= i < |summaries| :: summaries[i].path != p
  {
    if p in Paths(summaries) {
      var s :| s in summaries && s.path == p;
    }
  }
}
