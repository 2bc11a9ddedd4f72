/** The reference ingestor of indexer/reference_ingestor.py: it asks cscope for
    the callees of every function symbol and stores each answer line as an
    untrusted row of `raw_references`. The cscope process is the `run`
    parameter of CscopeClient; the table is a field of the ingestor. */
module ReferenceIngestor {
  import opened Wrappers
  import opened Paths
  import opened Sorting
  import Indexer
  import CscopeClient

  /** A row of `SELECT id, name FROM symbols WHERE type = 'function'`. */
  datatype FunctionRow = FunctionRow(id: nat, name: string)

  /** The six values of one `raw_references` insert. */
  datatype PendingRow = PendingRow(
    queryType: string,
    querySymbol: string,
    sourceFile: string,
    sourceFunction: string,
    lineNumber: int,
    lineText: string)

  /** A stored `raw_references` row and its surrogate key. */
  datatype RawRef = RawRef(id: nat, row: PendingRow)

  /** `_normalize_path`: an absolute path under the root becomes relative, anything else is only rewritten as POSIX.
      The stored path is never empty, and it is absolute exactly when the cscope path is absolute and outside
      the root. */
  function NormalizePath(cscopePath: string, root: PurePath): (r: string)
    ensures |r| > 0
    ensures r[0] == '/' <==> |cscopePath| > 0 && cscopePath[0] == '/' && RelativeTo(Parse(cscopePath), root).None?
  {
    var path := Parse(cscopePath);
    if path.absolute then
      match RelativeTo(path, root)
      case Some(rel) =>
        RelativeWellFormed(path, root);
        RelativePosix(rel);
        AsPosix(rel)
      case None => AsPosix(path)
    else
      RelativePosix(path);
      AsPosix(path)
  }

  /** The path of a well-formed path relative to a root is well-formed. */
  lemma RelativeWellFormed(p: PurePath, root: PurePath)
    requires WellFormed(p) && RelativeTo(p, root).Some?
    ensures WellFormed(RelativeTo(p, root).value)
  {
    var rel := RelativeTo(p, root).value;
    forall i | 0 <= i < |rel.parts| ensures IsPart(rel.parts[i]) {
      assert rel.parts[i] == p.parts[|root.parts| + i];
    }
  }

  /** The POSIX form of a well-formed relative path is not empty and does not start with a slash. */
  lemma RelativePosix(p: PurePath)
    requires WellFormed(p) && !p.absolute
    ensures |AsPosix(p)| > 0 && AsPosix(p)[0] != '/'
  {
    if |p.parts| > 0 {
      JoinStartsWithFirst(p.parts, '/');
      assert IsPart(p.parts[0]);
      assert AsPosix(p)[0] == p.parts[0][0];
    }
  }

  /** An absolute path under the source root comes out as its relative POSIX form. */
  lemma NormalizeUnderRoot(cscopePath: string, root: PurePath)
    requires root.absolute && |cscopePath| > 0 && cscopePath[0] == '/'
    requires root.parts <= Parse(cscopePath).parts
    ensures NormalizePath(cscopePath, root) == AsPosix(PurePath(false, Parse(cscopePath).parts[|root.parts|..]))
  {
  }

  /** An absolute path outside the source root comes out absolute, as POSIX. */
  lemma NormalizeOutsideRoot(cscopePath: string, root: PurePath)
    requires |cscopePath| > 0 && cscopePath[0] == '/'
    requires !(root.absolute && root.parts <= Parse(cscopePath).parts)
    ensures NormalizePath(cscopePath, root) == AsPosix(Parse(cscopePath))
    ensures NormalizePath(cscopePath, root)[0] == '/'
  {
  }

  /** A path already in relative POSIX form (as cscope prints it when built in the source root) is returned unchanged. */
  lemma NormalizeRelativeUnchanged(cscopePath: string, root: PurePath)
    requires IsCanonical(cscopePath) && (|cscopePath| == 0 || cscopePath[0] != '/')
    ensures NormalizePath(cscopePath, root) == cscopePath
  {
    AsPosixParse(cscopePath);
  }

  /** Normalising twice is normalising once: a stored path is already in the form the ingestor writes. */
  lemma NormalizeIdempotent(cscopePath: string, root: PurePath)
    ensures NormalizePath(NormalizePath(cscopePath, root), root) == NormalizePath(cscopePath, root)
  {
    var path := Parse(cscopePath);
    if path.absolute && RelativeTo(path, root).Some? {
      var rel := RelativeTo(path, root).value;
      assert WellFormed(rel) by {
        forall i | 0 <= i < |rel.parts| ensures IsPart(rel.parts[i]) {
          assert rel.parts[i] == path.parts[|root.parts| + i];
        }
      }
      ParseAsPosix(rel);
    } else {
      ParseAsPosix(path);
    }
  }

  /** The function rows of the symbol table, in table order. */
  function FunctionRowsOf(symbols: seq<Indexer.SymbolRow>): (r: seq<FunctionRow>)
    ensures forall f :: f in r <==> exists s :: s in symbols && s.typ == "function" && f == FunctionRow(s.id, s.name)
  {
    if |symbols| == 0 then []
    else
      var n := |symbols| - 1;
      var s := symbols[n];
      assert symbols == symbols[..n] + [s];
      FunctionRowsOf(symbols[..n]) + (if s.typ == "function" then [FunctionRow(s.id, s.name)] else [])
  }

  function IdLe(a: FunctionRow, b: FunctionRow): bool {
    a.id <= b.id
  }

  lemma IdLeTotalPreorder()
    ensures TotalPreorder(IdLe)
  {
  }

  /** `get_all_functions`: every function symbol, ordered by id. */
  function AllFunctions(symbols: seq<Indexer.SymbolRow>): (r: seq<FunctionRow>)
    ensures SortedBy(IdLe, r)
    ensures multiset(r) == multiset(FunctionRowsOf(symbols))
    ensures forall f :: f in r <==> exists s :: s in symbols && s.typ == "function" && f == FunctionRow(s.id, s.name)
  {
    IdLeTotalPreorder();
    var r := SortBy(FunctionRowsOf(symbols), IdLe);
    SameElements(r, FunctionRowsOf(symbols));
    r
  }

  lemma SameElements<T>(a: seq<T>, b: seq<T>)
    requires multiset(a) == multiset(b)
    ensures forall x :: x in a <==> x in b
  {
    forall x ensures x in a <==> x in b {
      assert x in a <==> x in multiset(a);
      assert x in b <==> x in multiset(b);
    }
  }

  /** The rows built from one successful callees query of `name`. */
  function RowsFor(name: string, refs: seq<CscopeClient.Reference>, root: PurePath): (rows: seq<PendingRow>)
    ensures |rows| == |refs|
    ensures forall k :: 0 <= k < |refs| ==> rows[k] == PendingRow(
      "callees", name, NormalizePath(refs[k].filePath, root), refs[k].func, refs[k].lineNumber, refs[k].lineText)
  {
    seq(|refs|, k requires 0 <= k < |refs| =>
      PendingRow("callees", name, NormalizePath(refs[k].filePath, root), refs[k].func, refs[k].lineNumber, refs[k].lineText))
  }

  /** A query of cscope by function name, as `find_callees` answers it. */
  type Query = string -> Result<seq<CscopeClient.Reference>, CscopeClient.QueryError>

  /** `find_callees` over the cscope process `run`. */
  function CalleesQuery(run: seq<string> -> CscopeClient.Outcome): Query
  {
    name => CscopeClient.QueryCscope("callees", name, run)
  }

  /** What the query of `name` contributes: its rows, or nothing when the query fails. */
  function Contribution(name: string, query: Query, root: PurePath): seq<PendingRow>
  {
    match query(name)
    case Ok(refs) => RowsFor(name, refs, root)
    case Err(_) => []
  }

  /** The concatenation of `chunks`, in order. */
  function Flatten<T>(chunks: seq<seq<T>>): seq<T>
  {
    if |chunks| == 0 then [] else Flatten(chunks[..|chunks| - 1]) + chunks[|chunks| - 1]
  }

  lemma {:induction false} FlattenConcat<T>(a: seq<seq<T>>, b: seq<seq<T>>)
    ensures Flatten(a + b) == Flatten(a) + Flatten(b)
  {
    if |b| == 0 {
      assert a + b == a;
    } else {
      var n := |b| - 1;
      assert (a + b)[..|a + b| - 1] == a + b[..n];
      FlattenConcat(a, b[..n]);
    }
  }

  lemma {:induction false} FlattenMember<T>(chunks: seq<seq<T>>, x: T)
    requires x in Flatten(chunks)
    ensures exists i :: 0 <= i < |chunks| && x in chunks[i]
  {
    var n := |chunks| - 1;
    if x !in chunks[n] {
      FlattenMember(chunks[..n], x);
      var i :| 0 <= i < n && x in chunks[..n][i];
      assert x in chunks[i];
    }
  }

  /** The contribution of each function, in order. */
  function Chunks(functions: seq<FunctionRow>, query: Query, root: PurePath): (c: seq<seq<PendingRow>>)
    ensures |c| == |functions|
    ensures forall i :: 0 <= i < |functions| ==> c[i] == Contribution(functions[i].name, query, root)
  {
    seq(|functions|, i requires 0 <= i < |functions| => Contribution(functions[i].name, query, root))
  }

  /** The batch `ingest_callees` builds over `functions`: their contributions, in their order. */
  function Batch(functions: seq<FunctionRow>, query: Query, root: PurePath): seq<PendingRow>
  {
    Flatten(Chunks(functions, query, root))
  }

  /** Querying one more function appends its contribution to the batch. */
  lemma BatchSnoc(functions: seq<FunctionRow>, i: nat, query: Query, root: PurePath)
    requires i < |functions|
    ensures Batch(functions[..i + 1], query, root) == Batch(functions[..i], query, root) + Contribution(functions[i].name, query, root)
  {
    var c := Chunks(functions[..i + 1], query, root);
    assert c[..i] == Chunks(functions[..i], query, root);
  }

  /** Every batch row is a callees row whose query symbol is one of the queried functions. */
  lemma BatchRowsAreCallees(functions: seq<FunctionRow>, query: Query, root: PurePath)
    ensures forall row :: row in Batch(functions, query, root) ==>
      row.queryType == "callees" && exists f :: f in functions && f.name == row.querySymbol
  {
    var c := Chunks(functions, query, root);
    forall row | row in Batch(functions, query, root)
      ensures row.queryType == "callees" && exists f :: f in functions && f.name == row.querySymbol
    {
      FlattenMember(c, row);
      var i :| 0 <= i < |c| && row in c[i];
      var k :| 0 <= k < |c[i]| && c[i][k] == row;
      assert functions[i] in functions;
    }
  }

  /** The batch is the concatenation of the contributions, so a failing query drops exactly its own rows. */
  lemma BatchConcat(a: seq<FunctionRow>, b: seq<FunctionRow>, query: Query, root: PurePath)
    ensures Batch(a + b, query, root) == Batch(a, query, root) + Batch(b, query, root)
  {
    assert Chunks(a + b, query, root) == Chunks(a, query, root) + Chunks(b, query, root);
    FlattenConcat(Chunks(a, query, root), Chunks(b, query, root));
  }

  /** A function whose query fails adds no rows and leaves the rows of the others in place. */
  lemma FailedQueryAddsNothing(a: seq<FunctionRow>, f: FunctionRow, b: seq<FunctionRow>,
                               query: Query, root: PurePath)
    requires query(f.name).Err?
    ensures Batch(a + [f] + b, query, root) == Batch(a, query, root) + Batch(b, query, root)
  {
    BatchConcat(a + [f], b, query, root);
    BatchConcat(a, [f], query, root);
    FailedQueryAlone(f, query, root);
    assert Batch(a, query, root) + [] == Batch(a, query, root);
  }

  /** A function whose query fails contributes an empty batch. */
  lemma FailedQueryAlone(f: FunctionRow, query: Query, root: PurePath)
    requires query(f.name).Err?
    ensures Batch([f], query, root) == []
  {
    var c := Chunks([f], query, root);
    assert c[0] == [];
    assert c[..0] == [];
    assert Flatten(c) == Flatten(c[..0]) + c[0];
  }

  /** The number of references the successful queries returned. */
  function SucceededReferences(functions: seq<FunctionRow>, query: Query): nat
  {
    if |functions| == 0 then 0
    else
      var n := |functions| - 1;
      var q := query(functions[n].name);
      SucceededReferences(functions[..n], query) + (if q.Ok? then |q.value| else 0)
  }

  /** The return value counts one row per reference of every successful query. */
  lemma {:induction false} BatchSize(functions: seq<FunctionRow>, query: Query, root: PurePath)
    ensures |Batch(functions, query, root)| == SucceededReferences(functions, query)
  {
    if |functions| > 0 {
      var n := |functions| - 1;
      BatchSize(functions[..n], query, root);
      BatchSnoc(functions, n, query, root);
      assert functions[..n + 1] == functions;
    }
  }

  /** The rows `DELETE FROM raw_references WHERE query_type = 'callees'` keeps. */
  function WithoutCallees(rows: seq<RawRef>): (r: seq<RawRef>)
    ensures forall x :: x in r <==> x in rows && x.row.queryType != "callees"
  {
    if |rows| == 0 then []
    else
      var n := |rows| - 1;
      assert rows == rows[..n] + [rows[n]];
      WithoutCallees(rows[..n]) + (if rows[n].row.queryType != "callees" then [rows[n]] else [])
  }

  /** The stored rows of a batch, numbered from `first`. */
  function Numbered(batch: seq<PendingRow>, first: nat): (r: seq<RawRef>)
    ensures |r| == |batch|
    ensures forall k :: 0 <= k < |batch| ==> r[k] == RawRef(first + k, batch[k])
  {
    seq(|batch|, k requires 0 <= k < |batch| => RawRef(first + k, batch[k]))
  }

  /** The `raw_references` table and the root used to normalise the paths cscope prints. */
  class Ingestor {
    var rawReferences: seq<RawRef>
    var nextRawId: nat
    const sourceRoot: PurePath

    constructor (root: PurePath, existing: seq<RawRef>, nextId: nat)
      ensures sourceRoot == root && rawReferences == existing && nextRawId == nextId
    {
      sourceRoot := root;
      rawReferences := existing;
      nextRawId := nextId;
    }

    /** The inner loop of `ingest_callees`: one row per reference, appended to the batch. */
    method AppendRows(batch: seq<PendingRow>, name: string, refs: seq<CscopeClient.Reference>) returns (out: seq<PendingRow>)
      ensures out == batch + RowsFor(name, refs, sourceRoot)
    {
      out := batch;
      var j := 0;
      while j < |refs|
        invariant 0 <= j <= |refs|
        invariant out == batch + RowsFor(name, refs[..j], sourceRoot)
      {
        var ref := refs[j];
        var normalized := NormalizePath(ref.filePath, sourceRoot);
        out := out + [PendingRow("callees", name, normalized, ref.func, ref.lineNumber, ref.lineText)];
        assert RowsFor(name, refs[..j + 1], sourceRoot) == RowsFor(name, refs[..j], sourceRoot) + [RowsFor(name, refs, sourceRoot)[j]];
        j := j + 1;
      }
      assert refs[..j] == refs;
    }

    /** The outer loop of `ingest_callees`: query every function in order, skipping those whose query fails. */
    method BuildBatch(functions: seq<FunctionRow>, query: Query) returns (batch: seq<PendingRow>)
      ensures batch == Batch(functions, query, sourceRoot)
    {
      batch := [];
      var i := 0;
      while i < |functions|
        invariant 0 <= i <= |functions|
        invariant batch == Batch(functions[..i], query, sourceRoot)
      {
        BatchSnoc(functions, i, query, sourceRoot);
        var name := functions[i].name;
        var results := query(name);
        if results.Ok? {
          batch := AppendRows(batch, name, results.value);
        }
        i := i + 1;
      }
      assert functions[..i] == functions;
    }

    /** `ingest_callees` over the symbol table `symbols`; returns the number of rows inserted. */
    method IngestCallees(symbols: seq<Indexer.SymbolRow>, clearExisting: bool, run: seq<string> -> CscopeClient.Outcome)
      returns (count: nat)
      modifies this
      ensures var kept := if clearExisting then WithoutCallees(old(rawReferences)) else old(rawReferences);
        var batch := Batch(AllFunctions(symbols), CalleesQuery(run), sourceRoot);
        && rawReferences == kept + Numbered(batch, old(nextRawId))
        && nextRawId == old(nextRawId) + |batch|
        && count == |batch|
    {
      if clearExisting {
        rawReferences := WithoutCallees(rawReferences);
      }
      var functions := AllFunctions(symbols);
      if |functions| == 0 {
        assert Chunks(functions, CalleesQuery(run), sourceRoot) == [];
        assert rawReferences + [] == rawReferences;
        return 0;
      }
      var batch := BuildBatch(functions, CalleesQuery(run));
      if |batch| > 0 {
        rawReferences := rawReferences + Numbered(batch, nextRawId);
        nextRawId := nextRawId + |batch|;
      } else {
        assert rawReferences + Numbered(batch, nextRawId) == rawReferences;
      }
      count := |batch|;
    }
  }
}
