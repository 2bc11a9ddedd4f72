/** The index store of indexer/indexer.py: the files, symbols, references,
    search-projection and metadata tables, and the operations of `Indexer`
    that change them — per-file refresh, clearing, metadata upsert and the
    batch loop of `index_directory`. SQLite itself is outside the model: each
    table is a field, each SQL statement an assignment to it. The schema file
    is not part of this model; the store follows what the code relies on:
    deleting a symbol deletes its references (ON DELETE CASCADE with foreign
    keys on) and its search-projection entry (the FTS delete trigger), and an
    inserted symbol gets a projection entry (the FTS insert trigger). */
module Indexer {
  import opened Wrappers
  import opened Strings
  import opened Paths
  import CtagsParser

  /** A row of `files`; `lastModified` stands for the mtime, which the store only copies. */
  datatype FileRow = FileRow(size: nat, language: string, sha1: string, lastModified: int)

  /** What reading a file yields: its byte count, SHA-1 digest and modification time. */
  datatype FileMeta = FileMeta(size: nat, sha1: string, mtime: int)

  /** A row of `symbols`; `id` is the surrogate key SQLite assigns. */
  datatype SymbolRow = SymbolRow(
    id: nat,
    name: string,
    typ: string,
    kindRaw: Option<string>,
    filePath: string,
    line: int,
    signature: Option<string>,
    typeref: Option<string>,
    scope: Option<string>,
    scopeKind: Option<string>,
    scopeName: Option<string>,
    isFileScope: Option<int>)

  /** An entry of the full-text index `symbols_fts`: its rowid is the symbol's id. */
  datatype FtsRow = FtsRow(rowid: nat, name: string, filePath: string, signature: Option<string>)

  /** A row of `references`: a usage site of the symbol `symbolId`. */
  datatype RefRow = RefRow(id: nat, symbolId: nat, filePath: string, line: int, context: string)

  /** The `scope` key of a symbol dictionary: missing, present with None, or present with a text. */
  datatype ScopeEntry = ScopeAbsent | ScopeNull | ScopeValue(value: string)

  /** A symbol dictionary as the refresh receives it. `name`, `typ` and `line` are None when the key is
      missing; for the other keys, which are read with `get`, None covers both missing and None. */
  datatype SymbolDict = SymbolDict(
    name: Option<string>,
    typ: Option<string>,
    line: Option<int>,
    kindRaw: Option<string>,
    signature: Option<string>,
    typeref: Option<string>,
    scope: ScopeEntry,
    scopeKind: Option<string>,
    scopeName: Option<string>,
    isFileScope: Option<int>)

  /** The four tables a refresh touches, and the next surrogate key. */
  datatype Tables = Tables(
    files: map<string, FileRow>,
    symbols: seq<SymbolRow>,
    references: seq<RefRow>,
    fts: seq<FtsRow>,
    nextId: nat)

  /** Why indexing one file failed: the path is not under the source root, the file could not be read,
      or a symbol dictionary lacks a required key (KeyError). `BatchFailed` is an error outside the
      per-file handler of `index_directory`. */
  datatype IndexError = NotUnderRoot | Unreadable | MissingKey | BatchFailed

  /** The state after a refresh and what the refresh returned. */
  datatype RefreshResult = RefreshResult(tables: Tables, outcome: Result<nat, IndexError>)

  /* ---------- the search projection and the table invariants ---------- */

  function Entry(s: SymbolRow): FtsRow {
    FtsRow(s.id, s.name, s.filePath, s.signature)
  }

  /** The search projection of a symbol table: one entry per symbol, in the same order. */
  function Projection(symbols: seq<SymbolRow>): (fts: seq<FtsRow>)
    ensures |fts| == |symbols|
    ensures forall i :: 0 <= i < |symbols| ==> fts[i] == Entry(symbols[i])
  {
    seq(|symbols|, i requires 0 <= i < |symbols| => Entry(symbols[i]))
  }

  function Ids(symbols: seq<SymbolRow>): set<nat> {
    set s | s in symbols :: s.id
  }

  predicate IdsIncreasing(symbols: seq<SymbolRow>) {
    forall i, j :: 0 <= i < j < |symbols| ==> symbols[i].id < symbols[j].id
  }

  predicate IdsBelow(symbols: seq<SymbolRow>, bound: nat) {
    forall i :: 0 <= i < |symbols| ==> symbols[i].id < bound
  }

  predicate ReferencesLive(references: seq<RefRow>, symbols: seq<SymbolRow>) {
    forall r :: r in references ==> r.symbolId in Ids(symbols)
  }

  /** The store's invariants: the search projection is exactly the projection of the live symbols,
      surrogate keys increase and are never reused, and every reference points at a live symbol. */
  predicate ValidTables(t: Tables) {
    && t.fts == Projection(t.symbols)
    && IdsIncreasing(t.symbols)
    && IdsBelow(t.symbols, t.nextId)
    && ReferencesLive(t.references, t.symbols)
  }

  /* ---------- filters used by the DELETE statements ---------- */

  /** The symbols whose file_path is not `path`, in table order. */
  function SymbolsNotIn(symbols: seq<SymbolRow>, path: string): (r: seq<SymbolRow>)
    ensures |r| <= |symbols|
    ensures forall s :: s in r <==> s in symbols && s.filePath != path
  {
    if |symbols| == 0 then []
    else
      var n := |symbols| - 1;
      assert symbols == symbols[..n] + [symbols[n]];
      SymbolsNotIn(symbols[..n], path) + (if symbols[n].filePath != path then [symbols[n]] else [])
  }

  /** The symbols whose file_path is `path`, in table order. */
  function OfFile(symbols: seq<SymbolRow>, path: string): (r: seq<SymbolRow>)
    ensures |r| <= |symbols|
    ensures forall s :: s in r <==> s in symbols && s.filePath == path
  {
    if |symbols| == 0 then []
    else
      var n := |symbols| - 1;
      assert symbols == symbols[..n] + [symbols[n]];
      OfFile(symbols[..n], path) + (if symbols[n].filePath == path then [symbols[n]] else [])
  }

  /** The search entries whose file_path is not `path`. */
  function FtsNotIn(fts: seq<FtsRow>, path: string): seq<FtsRow>
  {
    if |fts| == 0 then []
    else
      var n := |fts| - 1;
      FtsNotIn(fts[..n], path) + (if fts[n].filePath != path then [fts[n]] else [])
  }

  /** The references whose symbol is not among `dropped`. */
  function RefsNotTo(references: seq<RefRow>, dropped: set<nat>): (r: seq<RefRow>)
    ensures forall x :: x in r <==> x in references && x.symbolId !in dropped
  {
    if |references| == 0 then []
    else
      var n := |references| - 1;
      assert references == references[..n] + [references[n]];
      RefsNotTo(references[..n], dropped) + (if references[n].symbolId !in dropped then [references[n]] else [])
  }

  function IdsOfFile(symbols: seq<SymbolRow>, path: string): set<nat> {
    set s | s in symbols && s.filePath == path :: s.id
  }

  /* ---------- the statements of a refresh, on values ---------- */

  /** `DELETE FROM symbols WHERE file_path = ?`, with the cascade to references and the FTS trigger. */
  function DeleteFileSymbols(t: Tables, path: string): Tables {
    t.(symbols := SymbolsNotIn(t.symbols, path),
       references := RefsNotTo(t.references, IdsOfFile(t.symbols, path)),
       fts := FtsNotIn(t.fts, path))
  }

  /** `INSERT OR REPLACE INTO files`: the row for `path` is replaced wholesale. */
  function ReplaceFileRow(t: Tables, path: string, row: FileRow): Tables {
    t.(files := t.files[path := row])
  }

  /** Rows numbered consecutively from `first`, as SQLite numbers a batch of inserts. */
  predicate NumberedFrom(rows: seq<SymbolRow>, first: nat) {
    forall k :: 0 <= k < |rows| ==> rows[k].id == first + k
  }

  /** `INSERT INTO symbols` of `rows`, with the FTS insert trigger. */
  function InsertRows(t: Tables, rows: seq<SymbolRow>): (r: Tables)
    ensures r.nextId == t.nextId + |rows|
  {
    t.(symbols := t.symbols + rows, fts := t.fts + Projection(rows), nextId := t.nextId + |rows|)
  }

  /** Both .c and .h are C; every other suffix is unknown. */
  function Language(file: PurePath): (lang: string)
    ensures lang == "c" <==> Suffix(file) == ".c" || Suffix(file) == ".h"
    ensures lang == "c" || lang == "unknown"
  {
    var ext := Suffix(file);
    if ext == ".c" || ext == ".h" then "c" else "unknown"
  }

  function FileRowOf(file: PurePath, meta: FileMeta): FileRow {
    FileRow(meta.size, Language(file), meta.sha1, meta.mtime)
  }

  /** A dictionary carrying the three keys read with `[]`. */
  predicate Complete(d: SymbolDict) {
    d.name.Some? && d.typ.Some? && d.line.Some?
  }

  /** The row `_index_file_with_symbols` builds from one dictionary. */
  function RowOf(d: SymbolDict, path: string, id: nat): (s: SymbolRow)
    requires Complete(d)
    ensures s.id == id && s.filePath == path
    ensures s.name == d.name.value && s.typ == d.typ.value && s.line == d.line.value
    ensures s.kindRaw == d.kindRaw && s.signature == d.signature && s.typeref == d.typeref
    ensures s.scope == (match d.scope case ScopeAbsent => Some("global") case ScopeNull => None case ScopeValue(v) => Some(v))
    ensures s.scopeKind == d.scopeKind && s.scopeName == d.scopeName && s.isFileScope == d.isFileScope
  {
    SymbolRow(
      id, d.name.value, d.typ.value, d.kindRaw, path, d.line.value, d.signature, d.typeref,
      match d.scope
      case ScopeAbsent => Some("global")
      case ScopeNull => None
      case ScopeValue(v) => Some(v),
      d.scopeKind, d.scopeName, d.isFileScope)
  }

  function RowsOf(dicts: seq<SymbolDict>, path: string, first: nat): (rows: seq<SymbolRow>)
    requires forall k :: 0 <= k < |dicts| ==> Complete(dicts[k])
    ensures |rows| == |dicts| && NumberedFrom(rows, first)
    ensures forall k :: 0 <= k < |rows| ==> rows[k] == RowOf(dicts[k], path, first + k)
  {
    seq(|dicts|, k requires 0 <= k < |dicts| => RowOf(dicts[k], path, first + k))
  }

  /** `_index_file_with_symbols` on values: the new tables and the return value or exception. The key
      counter moves on by the number of rows inserted, which is the returned count, and by nothing on an error. */
  function Refresh(t: Tables, root: Option<PurePath>, file: PurePath, dicts: seq<SymbolDict>, meta: Option<FileMeta>): (r: RefreshResult)
    ensures r.tables.nextId == t.nextId + (if r.outcome.Ok? then r.outcome.value else 0)
  {
    var rel := if root.Some? then RelativeTo(file, root.value) else None;
    if rel.None? then RefreshResult(t, Err(NotUnderRoot))
    else if meta.None? then RefreshResult(t, Err(Unreadable))
    else Rewrite(t, AsPosix(rel.value), FileRowOf(file, meta.value), dicts)
  }

  /** The statements of a refresh once the stored path and the file row are known. */
  function Rewrite(t: Tables, path: string, row: FileRow, dicts: seq<SymbolDict>): RefreshResult
  {
    var t1 := ReplaceFileRow(DeleteFileSymbols(t, path), path, row);
    if forall k :: 0 <= k < |dicts| ==> Complete(dicts[k]) then
      RefreshResult(InsertRows(t1, RowsOf(dicts, path, t1.nextId)), Ok(|dicts|))
    else RefreshResult(t1, Err(MissingKey))
  }

  /** The outcome of a refresh depends on its inputs, not on the tables. */
  function RefreshOutcome(root: Option<PurePath>, file: PurePath, dicts: seq<SymbolDict>, meta: Option<FileMeta>): Result<nat, IndexError>
  {
    if root.None? || RelativeTo(file, root.value).None? then Err(NotUnderRoot)
    else if meta.None? then Err(Unreadable)
    else if forall k :: 0 <= k < |dicts| ==> Complete(dicts[k]) then Ok(|dicts|)
    else Err(MissingKey)
  }

  /** The path `_index_file` stores: relative to the source root when the file is under it, otherwise absolute. */
  function StoredPath(root: Option<PurePath>, file: PurePath): string
  {
    if root.Some? && RelativeTo(file, root.value).Some? then AsPosix(RelativeTo(file, root.value).value)
    else AsPosix(file)
  }

  /** The row `_index_file` inserts for a symbol `parse_file` produced. */
  function ParsedRow(s: CtagsParser.Symbol, path: string, id: nat): (row: SymbolRow)
    ensures row.id == id && row.filePath == path && row.kindRaw.None?
  {
    SymbolRow(id, s.name, s.typ, None, path, s.line, s.signature, s.typeref, Some(s.scope), s.scopeKind, s.scopeName, s.isFileScope)
  }

  function ParsedRows(parsed: seq<CtagsParser.Symbol>, path: string, first: nat): (rows: seq<SymbolRow>)
    ensures |rows| == |parsed| && NumberedFrom(rows, first)
    ensures forall k :: 0 <= k < |rows| ==> rows[k] == ParsedRow(parsed[k], path, first + k)
  {
    seq(|parsed|, k requires 0 <= k < |parsed| => ParsedRow(parsed[k], path, first + k))
  }

  /** `_index_file` on values: the new tables and the count it returns (0 when the file cannot be read). */
  function IndexOne(t: Tables, root: Option<PurePath>, file: PurePath, meta: Option<FileMeta>, parsed: seq<CtagsParser.Symbol>): (r: (Tables, nat))
    ensures r.1 == (if meta.None? then 0 else |parsed|)
  {
    if meta.None? then (t, 0)
    else
      var path := StoredPath(root, file);
      var t1 := ReplaceFileRow(DeleteFileSymbols(t, path), path, FileRowOf(file, meta.value));
      (InsertRows(t1, ParsedRows(parsed, path, t1.nextId)), |parsed|)
  }

  /** The symbol list `file_to_symbols.get(key, [])` yields. */
  function SymbolsFor(fileToSymbols: map<string, seq<SymbolDict>>, key: string): seq<SymbolDict> {
    if key in fileToSymbols then fileToSymbols[key] else []
  }

  /** What reading `file` yields: its metadata, or nothing when it cannot be read. */
  function MetaOf(read: map<PurePath, FileMeta>, file: PurePath): Option<FileMeta> {
    if file in read then Some(read[file]) else None
  }

  /** The per-file loop of `index_directory` over `files`: the tables after it and the accumulated total. */
  function RefreshAll(t: Tables, root: Option<PurePath>, files: seq<PurePath>,
                      fileToSymbols: map<string, seq<SymbolDict>>, read: map<PurePath, FileMeta>): (r: (Tables, nat))
  {
    if |files| == 0 then (t, 0)
    else
      var n := |files| - 1;
      RefreshNext(RefreshAll(t, root, files[..n], fileToSymbols, read), root, files[n], fileToSymbols, read)
  }

  /** One iteration of the loop of `index_directory`: refresh one file and add its count when it succeeded. */
  function RefreshNext(prev: (Tables, nat), root: Option<PurePath>, file: PurePath,
                       fileToSymbols: map<string, seq<SymbolDict>>, read: map<PurePath, FileMeta>): (Tables, nat)
  {
    var res := Refresh(prev.0, root, file, SymbolsFor(fileToSymbols, AsPosix(file)), MetaOf(read, file));
    (res.tables, prev.1 + (if res.outcome.Ok? then res.outcome.value else 0))
  }

  /** One file more for the indexing loop. */
  lemma RefreshAllStep(t: Tables, root: Option<PurePath>, files: seq<PurePath>, i: nat,
                       fileToSymbols: map<string, seq<SymbolDict>>, read: map<PurePath, FileMeta>)
    requires i < |files|
    ensures RefreshAll(t, root, files[..i + 1], fileToSymbols, read) ==
      RefreshNext(RefreshAll(t, root, files[..i], fileToSymbols, read), root, files[i], fileToSymbols, read)
  {
    assert files[..i + 1][..i] == files[..i];
  }

  /** The sum of the counts of the files whose refresh did not raise. */
  function SucceededTotal(root: Option<PurePath>, files: seq<PurePath>,
                          fileToSymbols: map<string, seq<SymbolDict>>, read: map<PurePath, FileMeta>): nat
  {
    if |files| == 0 then 0
    else
      var n := |files| - 1;
      var o := RefreshOutcome(root, files[n], SymbolsFor(fileToSymbols, AsPosix(files[n])), MetaOf(read, files[n]));
      SucceededTotal(root, files[..n], fileToSymbols, read) + (if o.Ok? then o.value else 0)
  }

  /** The state `_clear_database` leaves. */
  function Cleared(t: Tables): Tables {
    Tables(map[], [], [], [], t.nextId)
  }

  /** `_update_metadata`: three upserts, and a fourth for the source root when it is set; no key is removed. */
  function MetadataAfter(m: map<string, string>, totalSymbols: int, totalFiles: int, indexedAt: string,
                         root: Option<PurePath>): (r: map<string, string>)
    ensures r.Keys == m.Keys + {"total_symbols", "total_files", "indexed_at"} + (if root.Some? then {"source_root"} else {})
  {
    var m1 := m["total_symbols" := IntToString(totalSymbols)]["total_files" := IntToString(totalFiles)]["indexed_at" := indexedAt];
    if root.Some? then m1["source_root" := AsPosix(root.value)] else m1
  }

  /* ---------- lemmas about the statements ---------- */

  lemma {:induction false} FtsNotInProjection(symbols: seq<SymbolRow>, path: string)
    ensures FtsNotIn(Projection(symbols), path) == Projection(SymbolsNotIn(symbols, path))
  {
    if |symbols| > 0 {
      var n := |symbols| - 1;
      assert Projection(symbols)[..n] == Projection(symbols[..n]);
      FtsNotInProjection(symbols[..n], path);
      ProjectionConcat(SymbolsNotIn(symbols[..n], path), if symbols[n].filePath != path then [symbols[n]] else []);
    }
  }

  lemma ProjectionConcat(a: seq<SymbolRow>, b: seq<SymbolRow>)
    ensures Projection(a + b) == Projection(a) + Projection(b)
  {
    assert forall i :: 0 <= i < |a + b| ==> Projection(a + b)[i] == (Projection(a) + Projection(b))[i];
  }

  /** A filtered table keeps the order of surrogate keys. */
  lemma {:induction false} SymbolsNotInIncreasing(symbols: seq<SymbolRow>, path: string)
    requires IdsIncreasing(symbols)
    ensures IdsIncreasing(SymbolsNotIn(symbols, path))
  {
    if |symbols| > 0 {
      var n := |symbols| - 1;
      var prefix := symbols[..n];
      SymbolsNotInIncreasing(prefix, path);
      var r := SymbolsNotIn(prefix, path);
      forall x | x in r ensures x.id < symbols[n].id {
        var i :| 0 <= i < n && prefix[i] == x;
      }
    }
  }

  /** The per-file delete keeps every invariant of the store. */
  lemma DeleteFileSymbolsValid(t: Tables, path: string)
    requires ValidTables(t)
    ensures ValidTables(DeleteFileSymbols(t, path))
  {
    FtsNotInProjection(t.symbols, path);
    SymbolsNotInIncreasing(t.symbols, path);
    var kept := SymbolsNotIn(t.symbols, path);
    var dropped := IdsOfFile(t.symbols, path);
    forall r | r in RefsNotTo(t.references, dropped) ensures r.symbolId in Ids(kept) {
      var s :| s in t.symbols && s.id == r.symbolId;
      assert s in kept;
    }
  }

  /** Inserting rows numbered from the next key keeps every invariant of the store. */
  lemma InsertRowsValid(t: Tables, rows: seq<SymbolRow>)
    requires ValidTables(t) && NumberedFrom(rows, t.nextId)
    ensures ValidTables(InsertRows(t, rows))
  {
    ProjectionConcat(t.symbols, rows);
    var s := t.symbols + rows;
    forall i, j | 0 <= i < j < |s| ensures s[i].id < s[j].id {
      if j < |t.symbols| {
      } else if i < |t.symbols| {
        assert s[i].id < t.nextId;
      }
    }
  }

  /** Two inserts in a row are one insert of both batches. */
  lemma InsertRowsAppend(t: Tables, a: seq<SymbolRow>, b: seq<SymbolRow>)
    ensures InsertRows(InsertRows(t, a), b) == InsertRows(t, a + b)
  {
    ProjectionConcat(a, b);
  }

  /** The files-table replace keeps every invariant of the store. */
  lemma ReplaceFileRowValid(t: Tables, path: string, row: FileRow)
    requires ValidTables(t)
    ensures ValidTables(ReplaceFileRow(t, path, row))
  {
  }

  lemma {:induction false} OfFileConcat(a: seq<SymbolRow>, b: seq<SymbolRow>, path: string)
    ensures OfFile(a + b, path) == OfFile(a, path) + OfFile(b, path)
  {
    if |b| > 0 {
      var n := |b| - 1;
      assert (a + b)[..|a + b| - 1] == a + b[..n];
      OfFileConcat(a, b[..n], path);
    } else {
      assert a + b == a;
    }
  }

  lemma {:induction false} OfFileNotIn(symbols: seq<SymbolRow>, path: string, q: string)
    ensures OfFile(SymbolsNotIn(symbols, path), q) == if q == path then [] else OfFile(symbols, q)
  {
    if |symbols| > 0 {
      var n := |symbols| - 1;
      var last := symbols[n];
      var kept := if last.filePath != path then [last] else [];
      OfFileNotIn(symbols[..n], path, q);
      OfFileConcat(SymbolsNotIn(symbols[..n], path), kept, q);
      assert [last][..0] == [];
      assert OfFile([last], q) == if last.filePath == q then [last] else [];
      assert OfFile(symbols, q) == OfFile(symbols[..n], q) + (if last.filePath == q then [last] else []);
    }
  }

  lemma {:induction false} OfFileAllIn(rows: seq<SymbolRow>, path: string, q: string)
    requires forall k :: 0 <= k < |rows| ==> rows[k].filePath == path
    ensures OfFile(rows, q) == if q == path then rows else []
  {
    if |rows| > 0 {
      var n := |rows| - 1;
      OfFileAllIn(rows[..n], path, q);
      assert rows[n].filePath == path;
      if rows[n].filePath == q {
        assert OfFile(rows, q) == OfFile(rows[..n], q) + [rows[n]];
        assert rows == rows[..n] + [rows[n]];
      } else {
        assert OfFile(rows, q) == OfFile(rows[..n], q) + [];
      }
    }
  }

  /* ---------- what a refresh promises ---------- */

  /** The outcome of a refresh: an error leaves the tables alone unless the error is a missing key,
      and success returns the number of dictionaries supplied. */
  lemma RefreshOutcomeIs(t: Tables, root: Option<PurePath>, file: PurePath, dicts: seq<SymbolDict>, meta: Option<FileMeta>)
    ensures Refresh(t, root, file, dicts, meta).outcome == RefreshOutcome(root, file, dicts, meta)
    ensures var o := RefreshOutcome(root, file, dicts, meta);
      o.Err? && o.error != MissingKey ==> Refresh(t, root, file, dicts, meta).tables == t
  {
  }

  /** After a rewrite of `path`, its symbols are exactly the supplied ones, in order. */
  lemma RewriteExactlySupplied(t: Tables, path: string, row: FileRow, dicts: seq<SymbolDict>)
    requires forall k :: 0 <= k < |dicts| ==> Complete(dicts[k])
    ensures var res := Rewrite(t, path, row, dicts);
      && res.outcome == Ok(|dicts|)
      && OfFile(res.tables.symbols, path) == RowsOf(dicts, path, t.nextId)
  {
    var t1 := ReplaceFileRow(DeleteFileSymbols(t, path), path, row);
    var rows := RowsOf(dicts, path, t1.nextId);
    OfFileConcat(t1.symbols, rows, path);
    OfFileNotIn(t.symbols, path, path);
    OfFileAllIn(rows, path, path);
  }

  /** Inserting rows of `path` leaves the symbols of every other file as they were. */
  lemma InsertRowsOthersUnchanged(t: Tables, rows: seq<SymbolRow>, path: string, q: string)
    requires q != path
    requires forall k :: 0 <= k < |rows| ==> rows[k].filePath == path
    ensures OfFile(InsertRows(t, rows).symbols, q) == OfFile(t.symbols, q)
  {
    OfFileConcat(t.symbols, rows, q);
    OfFileAllIn(rows, path, q);
    assert OfFile(t.symbols, q) + [] == OfFile(t.symbols, q);
  }

  /** A rewrite of `path` leaves the symbols of every other file as they were. */
  lemma RewriteOthersUnchanged(t: Tables, path: string, row: FileRow, dicts: seq<SymbolDict>, q: string)
    requires q != path
    ensures OfFile(Rewrite(t, path, row, dicts).tables.symbols, q) == OfFile(t.symbols, q)
  {
    var t1 := ReplaceFileRow(DeleteFileSymbols(t, path), path, row);
    OfFileNotIn(t.symbols, path, q);
    if forall k :: 0 <= k < |dicts| ==> Complete(dicts[k]) {
      InsertRowsOthersUnchanged(t1, RowsOf(dicts, path, t1.nextId), path, q);
    }
  }

  /** A rewrite keeps every invariant of the store. */
  lemma RewriteValid(t: Tables, path: string, row: FileRow, dicts: seq<SymbolDict>)
    requires ValidTables(t)
    ensures ValidTables(Rewrite(t, path, row, dicts).tables)
  {
    DeleteFileSymbolsValid(t, path);
    var t1 := ReplaceFileRow(DeleteFileSymbols(t, path), path, row);
    if forall k :: 0 <= k < |dicts| ==> Complete(dicts[k]) {
      InsertRowsValid(t1, RowsOf(dicts, path, t1.nextId));
    }
  }

  /** After a successful refresh of p, the symbols of p are exactly the supplied ones, in order. */
  lemma RefreshExactlySupplied(t: Tables, root: PurePath, file: PurePath, dicts: seq<SymbolDict>, meta: FileMeta)
    requires RelativeTo(file, root).Some?
    requires forall k :: 0 <= k < |dicts| ==> Complete(dicts[k])
    ensures var path := AsPosix(RelativeTo(file, root).value);
      var res := Refresh(t, Some(root), file, dicts, Some(meta));
      && res.outcome == Ok(|dicts|)
      && OfFile(res.tables.symbols, path) == RowsOf(dicts, path, t.nextId)
  {
    RewriteExactlySupplied(t, AsPosix(RelativeTo(file, root).value), FileRowOf(file, meta), dicts);
  }

  /** A refresh of p leaves the symbols of every other file as they were, whatever its outcome. */
  lemma RefreshOthersUnchanged(t: Tables, root: Option<PurePath>, file: PurePath, dicts: seq<SymbolDict>, meta: Option<FileMeta>, q: string)
    requires root.Some? && RelativeTo(file, root.value).Some? ==> q != AsPosix(RelativeTo(file, root.value).value)
    ensures OfFile(Refresh(t, root, file, dicts, meta).tables.symbols, q) == OfFile(t.symbols, q)
  {
    if root.Some? && RelativeTo(file, root.value).Some? && meta.Some? {
      RewriteOthersUnchanged(t, AsPosix(RelativeTo(file, root.value).value), FileRowOf(file, meta.value), dicts, q);
    }
  }

  /** The file row of p is replaced wholesale, even when a dictionary then lacks a key; no other file row changes. */
  lemma RefreshFileRow(t: Tables, root: PurePath, file: PurePath, dicts: seq<SymbolDict>, meta: FileMeta)
    requires RelativeTo(file, root).Some?
    ensures var path := AsPosix(RelativeTo(file, root).value);
      var files := Refresh(t, Some(root), file, dicts, Some(meta)).tables.files;
      && path in files
      && files[path] == FileRow(meta.size, Language(file), meta.sha1, meta.mtime)
      && (files[path].language == "c" <==> Suffix(file) in {".c", ".h"})
      && forall q :: q != path ==> (q in files <==> q in t.files) && (q in files ==> files[q] == t.files[q])
  {
  }

  /** A refresh keeps every invariant of the store. */
  lemma RefreshValid(t: Tables, root: Option<PurePath>, file: PurePath, dicts: seq<SymbolDict>, meta: Option<FileMeta>)
    requires ValidTables(t)
    ensures ValidTables(Refresh(t, root, file, dicts, meta).tables)
  {
    if root.Some? && RelativeTo(file, root.value).Some? && meta.Some? {
      RewriteValid(t, AsPosix(RelativeTo(file, root.value).value), FileRowOf(file, meta.value), dicts);
    }
  }

  /** The total of the batch loop is the sum over the files that did not raise. */
  lemma {:induction false} RefreshAllTotal(t: Tables, root: Option<PurePath>, files: seq<PurePath>,
                                           fileToSymbols: map<string, seq<SymbolDict>>, read: map<PurePath, FileMeta>)
    ensures RefreshAll(t, root, files, fileToSymbols, read).1 == SucceededTotal(root, files, fileToSymbols, read)
  {
    if |files| > 0 {
      var n := |files| - 1;
      RefreshAllTotal(t, root, files[..n], fileToSymbols, read);
      var prev := RefreshAll(t, root, files[..n], fileToSymbols, read);
      RefreshOutcomeIs(prev.0, root, files[n], SymbolsFor(fileToSymbols, AsPosix(files[n])), MetaOf(read, files[n]));
    }
  }

  /** The batch loop keeps every invariant of the store. */
  lemma {:induction false} RefreshAllValid(t: Tables, root: Option<PurePath>, files: seq<PurePath>,
                                           fileToSymbols: map<string, seq<SymbolDict>>, read: map<PurePath, FileMeta>)
    requires ValidTables(t)
    ensures ValidTables(RefreshAll(t, root, files, fileToSymbols, read).0)
  {
    if |files| > 0 {
      var n := |files| - 1;
      RefreshAllValid(t, root, files[..n], fileToSymbols, read);
      var prev := RefreshAll(t, root, files[..n], fileToSymbols, read);
      RefreshValid(prev.0, root, files[n], SymbolsFor(fileToSymbols, AsPosix(files[n])), MetaOf(read, files[n]));
    }
  }

  /** `_index_file` stores the relative POSIX path under the root, and the absolute POSIX path otherwise. */
  lemma StoredPathIs(root: Option<PurePath>, file: PurePath)
    ensures root.Some? && file.absolute == root.value.absolute && root.value.parts <= file.parts ==>
      StoredPath(root, file) == AsPosix(PurePath(false, file.parts[|root.value.parts|..]))
    ensures (root.None? || file.absolute != root.value.absolute || !(root.value.parts <= file.parts)) ==>
      StoredPath(root, file) == AsPosix(file)
  {
  }

  /** The dictionary `_parse_tag` returns, as `parse_root` hands it over: it has every required key and no kind_raw. */
  function DictOf(s: CtagsParser.Symbol): (d: SymbolDict)
    ensures Complete(d) && d.kindRaw.None?
  {
    SymbolDict(Some(s.name), Some(s.typ), Some(s.line), None, s.signature, s.typeref,
               ScopeValue(s.scope), s.scopeKind, s.scopeName, s.isFileScope)
  }

  /** Both insertion paths store a parsed symbol the same way. */
  lemma DictOfRow(s: CtagsParser.Symbol, path: string, id: nat)
    ensures RowOf(DictOf(s), path, id) == ParsedRow(s, path, id)
  {
  }

  /** `_update_metadata`: both statistics read back with int(), and the timestamp and source root are stored
      as given; the source root is written only when it is set. */
  lemma MetadataAfterReadsBack(m: map<string, string>, totalSymbols: int, totalFiles: int, indexedAt: string, root: Option<PurePath>)
    ensures var m2 := MetadataAfter(m, totalSymbols, totalFiles, indexedAt, root);
      && "total_symbols" in m2 && ParseInt(m2["total_symbols"]) == Some(totalSymbols)
      && "total_files" in m2 && ParseInt(m2["total_files"]) == Some(totalFiles)
      && "indexed_at" in m2 && m2["indexed_at"] == indexedAt
      && (root.Some? ==> "source_root" in m2 && m2["source_root"] == AsPosix(root.value))
  {
    var m2 := MetadataAfter(m, totalSymbols, totalFiles, indexedAt, root);
    assert m2["total_symbols"] == IntToString(totalSymbols);
    assert m2["total_files"] == IntToString(totalFiles);
    ParseIntToString(totalSymbols);
    ParseIntToString(totalFiles);
  }

  /** `_update_metadata` touches no other key, and without a source root leaves `source_root` as it was. */
  lemma MetadataAfterKeepsOthers(m: map<string, string>, totalSymbols: int, totalFiles: int, indexedAt: string, root: Option<PurePath>, k: string)
    requires k != "total_symbols" && k != "total_files" && k != "indexed_at"
    requires k == "source_root" ==> root.None?
    ensures var m2 := MetadataAfter(m, totalSymbols, totalFiles, indexedAt, root);
      (k in m2 <==> k in m) && (k in m ==> m2[k] == m[k])
  {
  }

  /** One more parsed symbol is one more row, numbered after the others. */
  lemma ParsedRowsSnoc(parsed: seq<CtagsParser.Symbol>, i: nat, path: string, first: nat)
    requires i < |parsed|
    ensures ParsedRows(parsed[..i + 1], path, first) == ParsedRows(parsed[..i], path, first) + [ParsedRow(parsed[i], path, first + i)]
  {
    assert parsed[..i + 1][..i] == parsed[..i];
  }

  /** `_index_file` keeps every invariant of the store. */
  lemma IndexOneValid(t: Tables, root: Option<PurePath>, file: PurePath, meta: Option<FileMeta>, parsed: seq<CtagsParser.Symbol>)
    requires ValidTables(t)
    ensures ValidTables(IndexOne(t, root, file, meta, parsed).0)
  {
    if meta.Some? {
      var path := StoredPath(root, file);
      DeleteFileSymbolsValid(t, path);
      var t1 := ReplaceFileRow(DeleteFileSymbols(t, path), path, FileRowOf(file, meta.value));
      InsertRowsValid(t1, ParsedRows(parsed, path, t1.nextId));
    }
  }

  /** The store of one `Indexer` connection. The single statements change the tables as the functions above
      say; the operations built from them keep `Valid()`. */
  class Index {
    var files: map<string, FileRow>
    var symbols: seq<SymbolRow>
    var references: seq<RefRow>
    var fts: seq<FtsRow>
    var metadata: map<string, string>
    var nextId: nat
    var sourceRoot: Option<PurePath>

    function State(): Tables
      reads this
    {
      Tables(files, symbols, references, fts, nextId)
    }

    predicate Valid()
      reads this
    {
      ValidTables(State())
    }

    /** `connect_db` on a database holding `initial` and `meta`; no source root is set yet. */
    constructor (initial: Tables, meta: map<string, string>)
      requires ValidTables(initial)
      ensures Valid() && State() == initial && metadata == meta && sourceRoot.None?
    {
      files, symbols, references, fts, nextId := initial.files, initial.symbols, initial.references, initial.fts, initial.nextId;
      metadata := meta;
      sourceRoot := None;
    }

    /** `DELETE FROM symbols WHERE file_path = ?`: the cascade drops the references of the deleted symbols
        and the delete trigger their search entries. */
    method DeleteSymbolsOfFile(path: string)
      requires Valid()
      modifies this
      ensures Valid()
      ensures State() == DeleteFileSymbols(old(State()), path)
      ensures metadata == old(metadata) && sourceRoot == old(sourceRoot)
    {
      // one statement: the cascade and the delete trigger take effect with the delete
      DeleteFileSymbolsValid(State(), path);
      WriteTables(DeleteFileSymbols(State(), path));
    }

    /** `INSERT OR REPLACE INTO files`. */
    method ReplaceFile(path: string, row: FileRow)
      requires Valid()
      modifies this
      ensures Valid()
      ensures State() == ReplaceFileRow(old(State()), path, row)
      ensures metadata == old(metadata) && sourceRoot == old(sourceRoot)
    {
      ReplaceFileRowValid(State(), path, row);
      files := files[path := row];
    }

    /** `INSERT INTO symbols` of a batch, which SQLite numbers from the next key; the insert trigger adds
        the search entries. */
    method InsertSymbols(rows: seq<SymbolRow>)
      requires Valid() && NumberedFrom(rows, nextId)
      modifies this
      ensures Valid()
      ensures State() == InsertRows(old(State()), rows)
      ensures metadata == old(metadata) && sourceRoot == old(sourceRoot)
    {
      InsertRowsValid(State(), rows);
      symbols := symbols + rows;
      fts := fts + Projection(rows);
      nextId := nextId + |rows|;
    }

    /** `_index_file_with_symbols`: delete the file's symbols, replace its file row, insert the new rows. */
    method RefreshFile(file: PurePath, dicts: seq<SymbolDict>, meta: Option<FileMeta>) returns (r: Result<nat, IndexError>)
      requires Valid()
      modifies this
      ensures Valid()
      ensures var res := Refresh(old(State()), old(sourceRoot), file, dicts, meta);
        State() == res.tables && r == res.outcome
      ensures metadata == old(metadata) && sourceRoot == old(sourceRoot)
    {
      if sourceRoot.None? {
        return Err(NotUnderRoot);
      }
      var rel := RelativeTo(file, sourceRoot.value);
      if rel.None? {
        return Err(NotUnderRoot);
      }
      var path := AsPosix(rel.value);
      if meta.None? {
        return Err(Unreadable);
      }
      DeleteSymbolsOfFile(path);
      ReplaceFile(path, FileRowOf(file, meta.value));
      if !(forall k :: 0 <= k < |dicts| ==> Complete(dicts[k])) {
        return Err(MissingKey);
      }
      InsertSymbols(RowsOf(dicts, path, nextId));
      r := Ok(|dicts|);
    }

    /** The loop of `_index_file` that inserts the parsed symbols one statement at a time. */
    method InsertParsed(parsed: seq<CtagsParser.Symbol>, path: string)
      requires Valid()
      modifies this
      ensures Valid()
      ensures State() == InsertRows(old(State()), ParsedRows(parsed, path, old(nextId)))
      ensures metadata == old(metadata) && sourceRoot == old(sourceRoot)
    {
      ghost var t1 := State();
      var i := 0;
      while i < |parsed|
        invariant 0 <= i <= |parsed|
        invariant Valid()
        invariant State() == InsertRows(t1, ParsedRows(parsed[..i], path, t1.nextId))
        invariant metadata == old(metadata) && sourceRoot == old(sourceRoot)
      {
        var row := ParsedRow(parsed[i], path, nextId);
        InsertSymbols([row]);
        ParsedRowsSnoc(parsed, i, path, t1.nextId);
        InsertRowsAppend(t1, ParsedRows(parsed[..i], path, t1.nextId), [row]);
        i := i + 1;
      }
      assert parsed[..i] == parsed;
    }

    /** `_index_file`: the relative path falls back to the absolute one, an unreadable file counts 0. */
    method IndexFile(file: PurePath, meta: Option<FileMeta>, parsed: seq<CtagsParser.Symbol>) returns (count: nat)
      requires Valid()
      modifies this
      ensures Valid()
      ensures var res := IndexOne(old(State()), old(sourceRoot), file, meta, parsed);
        State() == res.0 && count == res.1
      ensures metadata == old(metadata) && sourceRoot == old(sourceRoot)
    {
      IndexOneValid(State(), sourceRoot, file, meta, parsed);
      var path := StoredPath(sourceRoot, file);
      if meta.None? {
        return 0;
      }
      DeleteSymbolsOfFile(path);
      ReplaceFile(path, FileRowOf(file, meta.value));
      InsertParsed(parsed, path);
      count := |parsed|;
    }

    /** `_clear_database`: references first, so that no reference ever points at a deleted symbol, then
        symbols, files and the search index. */
    method Clear()
      modifies this
      ensures Valid()
      ensures State() == Cleared(old(State()))
      ensures metadata == old(metadata) && sourceRoot == old(sourceRoot)
    {
      references := [];
      symbols := [];
      assert ReferencesLive(references, symbols);
      files := map[];
      fts := [];
    }

    /** `INSERT OR REPLACE INTO metadata`: a later write to a key replaces the earlier one. */
    method UpsertMetadata(key: string, value: string)
      modifies this
      ensures metadata == old(metadata)[key := value]
      ensures State() == old(State()) && sourceRoot == old(sourceRoot)
    {
      metadata := metadata[key := value];
    }

    /** `_update_metadata`; the clock reading is the `indexedAt` parameter. */
    method UpdateMetadata(totalSymbols: int, totalFiles: int, indexedAt: string)
      modifies this
      ensures metadata == MetadataAfter(old(metadata), totalSymbols, totalFiles, indexedAt, sourceRoot)
      ensures State() == old(State()) && sourceRoot == old(sourceRoot)
    {
      UpsertMetadata("total_symbols", IntToString(totalSymbols));
      UpsertMetadata("total_files", IntToString(totalFiles));
      UpsertMetadata("indexed_at", indexedAt);
      if sourceRoot.Some? {
        UpsertMetadata("source_root", AsPosix(sourceRoot.value));
      }
    }

    /** One pass of the loop of `index_directory`: refresh `file` and add its count to `total` when it succeeded. */
    method RefreshCounted(total: nat, file: PurePath, fileToSymbols: map<string, seq<SymbolDict>>,
                          read: map<PurePath, FileMeta>) returns (total': nat)
      requires Valid()
      modifies this
      ensures Valid()
      ensures (State(), total') == RefreshNext((old(State()), total), old(sourceRoot), file, fileToSymbols, read)
      ensures metadata == old(metadata) && sourceRoot == old(sourceRoot)
    {
      ghost var next := RefreshNext((State(), total), sourceRoot, file, fileToSymbols, read);
      var outcome := RefreshFile(file, SymbolsFor(fileToSymbols, AsPosix(file)), MetaOf(read, file));
      total' := total + (if outcome.Ok? then outcome.value else 0);
      assert State() == next.0 && total' == next.1;
    }

    /** Writes the tables `t`: the effect of one statement given on values, or the rollback of a
        transaction to the tables of its snapshot. */
    method WriteTables(t: Tables)
      requires ValidTables(t)
      modifies this
      ensures Valid() && State() == t
      ensures metadata == old(metadata) && sourceRoot == old(sourceRoot)
    {
      files, symbols, references, fts, nextId := t.files, t.symbols, t.references, t.fts, t.nextId;
    }

    /** The batch loop of `index_directory`: every file refreshed in order, the successful counts summed. */
    method RefreshEach(root: PurePath, files: seq<PurePath>, fileToSymbols: map<string, seq<SymbolDict>>,
                       read: map<PurePath, FileMeta>) returns (total: nat)
      requires Valid() && sourceRoot == Some(root)
      modifies this
      ensures Valid()
      ensures (State(), total) == RefreshAll(old(State()), Some(root), files, fileToSymbols, read)
      ensures metadata == old(metadata) && sourceRoot == old(sourceRoot)
    {
      ghost var t0 := State();
      total := 0;
      var i := 0;
      while i < |files|
        invariant 0 <= i <= |files|
        invariant Valid()
        invariant (State(), total) == RefreshAll(t0, Some(root), files[..i], fileToSymbols, read)
        invariant metadata == old(metadata) && sourceRoot == Some(root)
      {
        total := RefreshPrefix(t0, root, files, i, total, fileToSymbols, read);
        i := i + 1;
      }
      assert files[..i] == files;
    }

    /** One turn of that loop, with the files before `files[i]` already refreshed from `t0`. */
    method RefreshPrefix(ghost t0: Tables, root: PurePath, files: seq<PurePath>, i: nat, total: nat,
                         fileToSymbols: map<string, seq<SymbolDict>>, read: map<PurePath, FileMeta>) returns (total': nat)
      requires i < |files| && Valid() && sourceRoot == Some(root)
      requires (State(), total) == RefreshAll(t0, Some(root), files[..i], fileToSymbols, read)
      modifies this
      ensures Valid()
      ensures (State(), total') == RefreshAll(t0, Some(root), files[..i + 1], fileToSymbols, read)
      ensures metadata == old(metadata) && sourceRoot == old(sourceRoot)
    {
      RefreshAllStep(t0, Some(root), files, i, fileToSymbols, read);
      total' := RefreshCounted(total, files[i], fileToSymbols, read);
    }

    /** `index_directory` once discovery and ctags have run: `files` are the discovered absolute paths,
        `fileToSymbols` what `parse_root` returned, `read` the metadata of each file that can be read, `clear` the answer
        to the clear prompt, and `batchOk` false when an error escapes the per-file handler, which rolls the
        batch back and re-raises. */
    method IndexDirectory(root: PurePath, files: seq<PurePath>, fileToSymbols: map<string, seq<SymbolDict>>,
                          read: map<PurePath, FileMeta>, clear: bool, batchOk: bool, indexedAt: string)
      returns (r: Result<nat, IndexError>)
      requires Valid()
      modifies this
      ensures Valid() && sourceRoot == Some(root)
      ensures var t0 := if clear then Cleared(old(State())) else old(State());
        var after := RefreshAll(t0, Some(root), files, fileToSymbols, read);
        if batchOk then
          && State() == after.0
          && r == Ok(after.1)
          && metadata == MetadataAfter(old(metadata), after.1, |files|, indexedAt, Some(root))
        else
          && State() == t0
          && r == Err(BatchFailed)
          && metadata == old(metadata)
    {
      sourceRoot := Some(root);
      if clear {
        Clear();
      }
      var snapshot := State();
      var total := RefreshEach(root, files, fileToSymbols, read);
      if !batchOk {
        WriteTables(snapshot);
        return Err(BatchFailed);
      }
      UpdateMetadata(total, |files|, indexedAt);
      r := Ok(total);
    }
  }
}
