/** The reference resolver of indexer/reference_resolver.py: it turns the raw
    cscope rows into typed edges. A callees row becomes a CALLS edge between
    two function symbols once the callee is read off the line and both names
    are disambiguated; an includes row becomes an INCLUDES edge once the
    header name is matched against the indexed file paths. */
module ReferenceResolver {
  import opened Wrappers
  import opened Strings
  import opened Sorting
  import Indexer
  import ReferenceIngestor

  /* ---------- callee extraction ---------- */

  /** The C keywords that look like calls and are never callees. */
  const CKeywords: set<string> := {
    "if", "for", "while", "switch", "return", "sizeof", "typeof",
    "do", "else", "case", "break", "continue", "goto", "default"}

  /** The longest prefix of `s` made of word characters. */
  function TakeWord(s: string): (w: string)
    ensures w <= s
    ensures forall k :: 0 <= k < |w| ==> IsWordChar(w[k])
    ensures |w| < |s| ==> !IsWordChar(s[|w|])
  {
    if |s| == 0 || !IsWordChar(s[0]) then "" else [s[0]] + TakeWord(s[1..])
  }

  /** `s` after its leading white space. */
  function SkipSpaces(s: string): (r: string)
    ensures |r| <= |s| && r == s[|s| - |r|..]
    ensures forall k :: 0 <= k < |s| - |r| ==> IsSpace(s[k])
    ensures |r| > 0 ==> !IsSpace(r[0])
  {
    if |s| > 0 && IsSpace(s[0]) then SkipSpaces(s[1..]) else s
  }

  /** The pattern `\b([a-zA-Z_][a-zA-Z0-9_]*)\s*\(` matches at `i`: a word boundary, an identifier (which
      the greedy `[a-zA-Z0-9_]*` takes to the end of the word), optional white space, and `(`. */
  predicate CallAt(s: string, i: int) {
    && 0 <= i < |s|
    && (i == 0 || !IsWordChar(s[i - 1]))
    && IsIdentStart(s[i])
    && var w := TakeWord(s[i..]);
       var rest := SkipSpaces(s[i + |w|..]);
       |rest| > 0 && rest[0] == '('
  }

  /** A match at `i` whose identifier is not a keyword. */
  predicate CalleeAt(s: string, i: int) {
    CallAt(s, i) && TakeWord(s[i..]) !in CKeywords
  }

  /** A C identifier: a letter or underscore, then letters, digits and underscores. */
  predicate IsIdentifier(w: string) {
    |w| > 0 && IsIdentStart(w[0]) && forall k :: 0 <= k < |w| ==> IsWordChar(w[k])
  }

  /** The first non-keyword match at or after `i`. `re.findall` reports the matches left to right; a match
      only consumes an identifier, white space and `(`, none of which can start another match, so the
      matches it reports are exactly the positions where `CallAt` holds. */
  function FirstCallee(s: string, i: nat): (r: Option<string>)
    requires i <= |s|
    decreases |s| - i
    ensures r.Some? <==> exists j :: i <= j < |s| && CalleeAt(s, j)
    ensures r.Some? ==> exists j :: i <= j < |s| && CalleeAt(s, j) && r.value == TakeWord(s[j..]) &&
                                    forall k :: i <= k < j ==> !CalleeAt(s, k)
  {
    if i == |s| then None
    else if CalleeAt(s, i) then Some(TakeWord(s[i..]))
    else FirstCallee(s, i + 1)
  }

  /** `_extract_callee_from_line`: the leftmost identifier followed by `(` that is not a keyword, or None. */
  function ExtractCallee(line: string): (r: Option<string>)
    ensures r.Some? <==> exists j :: 0 <= j < |line| && CalleeAt(line, j)
    ensures r.Some? ==> exists j :: 0 <= j < |line| && CalleeAt(line, j) && r.value == TakeWord(line[j..]) &&
                                    forall k :: 0 <= k < j ==> !CalleeAt(line, k)
  {
    FirstCallee(line, 0)
  }

  /** A callee is an identifier and never a C keyword. */
  lemma CalleeIsIdentifier(line: string)
    requires ExtractCallee(line).Some?
    ensures IsIdentifier(ExtractCallee(line).value)
    ensures ExtractCallee(line).value !in CKeywords
  {
    var j :| 0 <= j < |line| && CalleeAt(line, j) && ExtractCallee(line).value == TakeWord(line[j..]);
    assert line[j..][0] == line[j];
  }

  /* ---------- symbol disambiguation ---------- */

  /** A row of `SELECT id, file_path FROM symbols WHERE name = ? AND type = 'function'`. */
  datatype Candidate = Candidate(id: nat, filePath: string)

  /** The function symbols named `name`, in table order. */
  function CandidatesOf(symbols: seq<Indexer.SymbolRow>, name: string): (c: seq<Candidate>)
    ensures forall x :: x in c <==> exists s :: s in symbols && s.name == name && s.typ == "function" && x == Candidate(s.id, s.filePath)
  {
    if |symbols| == 0 then []
    else
      var n := |symbols| - 1;
      var s := symbols[n];
      assert symbols == symbols[..n] + [s];
      CandidatesOf(symbols[..n], name) + (if s.name == name && s.typ == "function" then [Candidate(s.id, s.filePath)] else [])
  }

  /** The index of the first candidate in `file`, or -1. */
  function FirstInFile(c: seq<Candidate>, file: string): (i: int)
    ensures -1 <= i < |c|
    ensures i >= 0 ==> c[i].filePath == file && forall j :: 0 <= j < i ==> c[j].filePath != file
    ensures i == -1 ==> forall j :: 0 <= j < |c| ==> c[j].filePath != file
  {
    if |c| == 0 then -1
    else if c[0].filePath == file then 0
    else
      var k := FirstInFile(c[1..], file);
      if k == -1 then -1 else k + 1
  }

  /** The candidates in a `.c` file, in order. */
  function CFiles(c: seq<Candidate>): (r: seq<Candidate>)
    ensures forall x :: x in r <==> x in c && EndsWith(x.filePath, ".c")
  {
    if |c| == 0 then []
    else
      var n := |c| - 1;
      assert c == c[..n] + [c[n]];
      CFiles(c[..n]) + (if EndsWith(c[n].filePath, ".c") then [c[n]] else [])
  }

  /** `_resolve_src_symbol`: none, the only one, the first in the same file, or None. */
  function ResolveSrc(c: seq<Candidate>, sourceFile: string): (r: Option<nat>)
    ensures |c| == 0 ==> r.None?
    ensures |c| == 1 ==> r == Some(c[0].id)
    ensures |c| > 1 ==> (r.Some? <==> exists i :: 0 <= i < |c| && c[i].filePath == sourceFile)
    ensures |c| > 1 && r.Some? ==> var i := FirstInFile(c, sourceFile); i >= 0 && r == Some(c[i].id)
    ensures r.Some? ==> exists x :: x in c && x.id == r.value
  {
    if |c| == 0 then None
    else if |c| == 1 then Some(c[0].id)
    else
      var i := FirstInFile(c, sourceFile);
      if i >= 0 then Some(c[i].id) else None
  }

  /** `_resolve_dst_symbol`: as the source rule, then the unique `.c` candidate, else None. */
  function ResolveDst(c: seq<Candidate>, sourceFile: string): (r: Option<nat>)
    ensures |c| == 0 ==> r.None?
    ensures |c| == 1 ==> r == Some(c[0].id)
    ensures |c| > 1 && FirstInFile(c, sourceFile) >= 0 ==> r == Some(c[FirstInFile(c, sourceFile)].id)
    ensures |c| > 1 && FirstInFile(c, sourceFile) < 0 ==>
      r == (if |CFiles(c)| == 1 then Some(CFiles(c)[0].id) else None)
    ensures r.Some? ==> exists x :: x in c && x.id == r.value
  {
    if |c| == 0 then None
    else if |c| == 1 then Some(c[0].id)
    else
      var i := FirstInFile(c, sourceFile);
      if i >= 0 then Some(c[i].id)
      else
        var cs := CFiles(c);
        if |cs| == 1 then
          assert cs[0] in cs;
          Some(cs[0].id)
        else None
  }

  /** The destination rule only adds the `.c` tie-break: wherever the source rule resolves, both agree. */
  lemma DstExtendsSrc(c: seq<Candidate>, sourceFile: string)
    requires ResolveSrc(c, sourceFile).Some?
    ensures ResolveDst(c, sourceFile) == ResolveSrc(c, sourceFile)
  {
  }

  /** `if not id`: an id of 0 counts as unresolved, like None. */
  predicate Resolved(id: Option<nat>) {
    id.Some? && id.value != 0
  }

  /* ---------- the raw rows a pass reads ---------- */

  function RawIdLe(a: ReferenceIngestor.RawRef, b: ReferenceIngestor.RawRef): bool {
    a.id <= b.id
  }

  lemma RawIdLeTotalPreorder()
    ensures TotalPreorder(RawIdLe)
  {
  }

  /** The raw rows whose query type is `queryType`, in table order. */
  function OfQueryType(raw: seq<ReferenceIngestor.RawRef>, queryType: string): (r: seq<ReferenceIngestor.RawRef>)
    ensures forall x :: x in r <==> x in raw && x.row.queryType == queryType
  {
    if |raw| == 0 then []
    else
      var n := |raw| - 1;
      assert raw == raw[..n] + [raw[n]];
      OfQueryType(raw[..n], queryType) + (if raw[n].row.queryType == queryType then [raw[n]] else [])
  }

  /** `SELECT ... FROM raw_references WHERE query_type = ? ORDER BY id`. */
  function RowsOfType(raw: seq<ReferenceIngestor.RawRef>, queryType: string): (r: seq<ReferenceIngestor.RawRef>)
    ensures SortedBy(RawIdLe, r)
    ensures multiset(r) == multiset(OfQueryType(raw, queryType))
  {
    RawIdLeTotalPreorder();
    SortBy(OfQueryType(raw, queryType), RawIdLe)
  }

  /* ---------- resolving callees ---------- */

  /** A row of `symbol_edges`. */
  datatype SymbolEdge = SymbolEdge(edgeType: string, src: nat, dst: nat, sourceFile: string, lineNumber: int)

  /** What becomes of one callees row, checked in this order. */
  datatype CallOutcome = NoCallee | SrcUnresolved | DstUnresolved | CallEdge(edge: SymbolEdge)

  function ClassifyCall(r: ReferenceIngestor.PendingRow, symbols: seq<Indexer.SymbolRow>): (o: CallOutcome)
    ensures o.NoCallee? <==> ExtractCallee(r.lineText).None?
    ensures o.CallEdge? ==> o.edge.edgeType == "CALLS" && o.edge.sourceFile == r.sourceFile && o.edge.lineNumber == r.lineNumber
    ensures o.CallEdge? ==> o.edge.src != 0 && o.edge.dst != 0
  {
    match ExtractCallee(r.lineText)
    case None => NoCallee
    case Some(callee) =>
      var src := ResolveSrc(CandidatesOf(symbols, r.querySymbol), r.sourceFile);
      if !Resolved(src) then SrcUnresolved
      else
        var dst := ResolveDst(CandidatesOf(symbols, callee), r.sourceFile);
        if !Resolved(dst) then DstUnresolved
        else CallEdge(SymbolEdge("CALLS", src.value, dst.value, r.sourceFile, r.lineNumber))
  }

  /** Every CALLS edge joins a function named by the query to a function named by the callee on the line. */
  lemma CallEdgeEndpoints(r: ReferenceIngestor.PendingRow, symbols: seq<Indexer.SymbolRow>)
    requires ClassifyCall(r, symbols).CallEdge?
    ensures var e := ClassifyCall(r, symbols).edge;
      && (exists s :: s in symbols && s.typ == "function" && s.name == r.querySymbol && s.id == e.src)
      && (exists s :: s in symbols && s.typ == "function" && s.name == ExtractCallee(r.lineText).value && s.id == e.dst)
  {
    var callee := ExtractCallee(r.lineText).value;
    var e := ClassifyCall(r, symbols).edge;
    var x :| x in CandidatesOf(symbols, r.querySymbol) && x.id == e.src;
    var y :| y in CandidatesOf(symbols, callee) && y.id == e.dst;
  }

  /** What becomes of each callees row, in order. */
  function CallOutcomes(refs: seq<ReferenceIngestor.RawRef>, symbols: seq<Indexer.SymbolRow>): (o: seq<CallOutcome>)
    ensures |o| == |refs|
    ensures forall i :: 0 <= i < |refs| ==> o[i] == ClassifyCall(refs[i].row, symbols)
  {
    seq(|refs|, i requires 0 <= i < |refs| => ClassifyCall(refs[i].row, symbols))
  }

  /** The counters and edges of the callees loop. */
  datatype CallTally = CallTally(skipped: nat, unresolvedSrc: nat, unresolvedDst: nat, edges: seq<SymbolEdge>)

  /** The tally after one more outcome. */
  function Step(t: CallTally, o: CallOutcome): (t': CallTally)
    ensures t'.skipped + t'.unresolvedSrc + t'.unresolvedDst + |t'.edges| == t.skipped + t.unresolvedSrc + t.unresolvedDst + |t.edges| + 1
  {
    match o
    case NoCallee => t.(skipped := t.skipped + 1)
    case SrcUnresolved => t.(unresolvedSrc := t.unresolvedSrc + 1)
    case DstUnresolved => t.(unresolvedDst := t.unresolvedDst + 1)
    case CallEdge(e) => t.(edges := t.edges + [e])
  }

  function Tally(outcomes: seq<CallOutcome>): CallTally
  {
    if |outcomes| == 0 then CallTally(0, 0, 0, [])
    else
      var n := |outcomes| - 1;
      Step(Tally(outcomes[..n]), outcomes[n])
  }

  /** The tally of the callees rows, row by row. */
  function TallyCalls(refs: seq<ReferenceIngestor.RawRef>, symbols: seq<Indexer.SymbolRow>): CallTally
  {
    if |refs| == 0 then CallTally(0, 0, 0, [])
    else
      var n := |refs| - 1;
      Step(TallyCalls(refs[..n], symbols), ClassifyCall(refs[n].row, symbols))
  }

  /** Tallying the rows is tallying their outcomes. */
  lemma {:induction false} TallyCallsIsTally(refs: seq<ReferenceIngestor.RawRef>, symbols: seq<Indexer.SymbolRow>)
    ensures TallyCalls(refs, symbols) == Tally(CallOutcomes(refs, symbols))
  {
    if |refs| > 0 {
      var n := |refs| - 1;
      TallyCallsIsTally(refs[..n], symbols);
      assert CallOutcomes(refs, symbols)[..n] == CallOutcomes(refs[..n], symbols);
    }
  }

  /** Each outcome lands in exactly one of the four counts. */
  lemma {:induction false} TallyPartition(outcomes: seq<CallOutcome>)
    ensures var t := Tally(outcomes);
      t.skipped + t.unresolvedSrc + t.unresolvedDst + |t.edges| == |outcomes|
  {
    if |outcomes| > 0 {
      TallyPartition(outcomes[..|outcomes| - 1]);
    }
  }

  /** The edges collected are exactly the edges of the outcomes. */
  lemma {:induction false} TallyEdges(outcomes: seq<CallOutcome>)
    ensures forall e :: e in Tally(outcomes).edges <==> CallEdge(e) in outcomes
  {
    if |outcomes| > 0 {
      var n := |outcomes| - 1;
      TallyEdges(outcomes[..n]);
      assert outcomes == outcomes[..n] + [outcomes[n]];
    }
  }

  /** Each callees row lands in exactly one of the four counts. */
  lemma TallyCallsPartition(refs: seq<ReferenceIngestor.RawRef>, symbols: seq<Indexer.SymbolRow>)
    ensures var t := TallyCalls(refs, symbols);
      t.skipped + t.unresolvedSrc + t.unresolvedDst + |t.edges| == |refs|
  {
    TallyCallsIsTally(refs, symbols);
    TallyPartition(CallOutcomes(refs, symbols));
  }

  /** Every collected edge is a CALLS edge carrying the file and line of a callees row. */
  lemma TallyCallsEdges(refs: seq<ReferenceIngestor.RawRef>, symbols: seq<Indexer.SymbolRow>)
    ensures forall e :: e in TallyCalls(refs, symbols).edges ==>
      e.edgeType == "CALLS" && exists r :: r in refs && e.sourceFile == r.row.sourceFile && e.lineNumber == r.row.lineNumber
  {
    var o := CallOutcomes(refs, symbols);
    TallyCallsIsTally(refs, symbols);
    TallyEdges(o);
    forall e | e in TallyCalls(refs, symbols).edges
      ensures e.edgeType == "CALLS" && exists r :: r in refs && e.sourceFile == r.row.sourceFile && e.lineNumber == r.row.lineNumber
    {
      var i :| 0 <= i < |o| && o[i] == CallEdge(e);
      assert refs[i] in refs;
    }
  }

  /** `self.stats`; `ambiguousDst` is declared by the source but never counted. */
  datatype Stats = Stats(totalRawRefs: nat, resolvedEdges: nat, unresolvedSrc: nat, unresolvedDst: nat,
                         ambiguousDst: nat, skippedParsing: nat)

  /** The dictionary `_stats_dict` returns. */
  datatype CallReport = CallReport(totalRawRefs: nat, resolvedEdges: nat, unresolvedSrc: nat, unresolvedDst: nat, skippedParsing: nat)

  function ReportOf(s: Stats): CallReport {
    CallReport(s.totalRawRefs, s.resolvedEdges, s.unresolvedSrc, s.unresolvedDst, s.skippedParsing)
  }

  /** The stats after a non-empty pass over `total` callees rows with tally `t`, from the stats `s` it
      started with: the total is assigned, the three miss counters are added to, and the edge count is
      assigned only when edges were found. */
  function StatsAfter(s: Stats, total: nat, t: CallTally): (r: Stats)
    ensures r.totalRawRefs == total && r.ambiguousDst == s.ambiguousDst
    ensures r.unresolvedSrc >= s.unresolvedSrc && r.unresolvedDst >= s.unresolvedDst && r.skippedParsing >= s.skippedParsing
    ensures r.resolvedEdges != s.resolvedEdges ==> r.resolvedEdges == |t.edges| > 0
  {
    Stats(total,
          if |t.edges| > 0 then |t.edges| else s.resolvedEdges,
          s.unresolvedSrc + t.unresolvedSrc,
          s.unresolvedDst + t.unresolvedDst,
          s.ambiguousDst,
          s.skippedParsing + t.skipped)
  }

  /** The stats after `resolve_callees` over `refs`; with no rows only the total is reset. */
  function CallStatsAfter(s: Stats, refs: seq<ReferenceIngestor.RawRef>, symbols: seq<Indexer.SymbolRow>): Stats
  {
    if |refs| == 0 then s.(totalRawRefs := 0) else StatsAfter(s, |refs|, TallyCalls(refs, symbols))
  }

  const ZeroStats := Stats(0, 0, 0, 0, 0, 0)

  /** For a fresh resolver the four counters partition the callees rows. */
  lemma CallStatsPartition(refs: seq<ReferenceIngestor.RawRef>, symbols: seq<Indexer.SymbolRow>)
    ensures var s := CallStatsAfter(ZeroStats, refs, symbols);
      s.skippedParsing + s.unresolvedSrc + s.unresolvedDst + s.resolvedEdges == s.totalRawRefs
      && s.totalRawRefs == |refs|
  {
    TallyCallsPartition(refs, symbols);
  }

  /* ---------- resolving includes ---------- */

  /** The answer of `_resolve_header_path`. */
  datatype HeaderMatch = NoMatch | Unique(path: string) | Ambiguous(paths: seq<string>)

  /** `path LIKE '%/' || name OR path = name`, with LIKE read as an exact suffix test. */
  predicate MatchesHeader(path: string, name: string) {
    path == name || EndsWith(path, "/" + name)
  }

  /** The indexed paths that match `name`, in table order. */
  function HeaderCandidates(paths: seq<string>, name: string): (r: seq<string>)
    ensures forall p :: p in r <==> p in paths && MatchesHeader(p, name)
  {
    if |paths| == 0 then []
    else
      var n := |paths| - 1;
      assert paths == paths[..n] + [paths[n]];
      HeaderCandidates(paths[..n], name) + (if MatchesHeader(paths[n], name) then [paths[n]] else [])
  }

  /** `_resolve_header_path` over the paths of the `files` table. */
  function ResolveHeaderPath(name: string, paths: seq<string>): (r: HeaderMatch)
    ensures '/' in name ==> r == (if name in paths then Unique(name) else NoMatch)
    ensures '/' !in name ==> (r.NoMatch? <==> forall p :: p in paths ==> !MatchesHeader(p, name))
    ensures '/' !in name && r.Unique? ==> r.path in paths && MatchesHeader(r.path, name) &&
                                          multiset(HeaderCandidates(paths, name)) == multiset{r.path}
    ensures '/' !in name && r.Ambiguous? ==>
      && |r.paths| >= 2
      && SortedBy(StringLe, r.paths)
      && multiset(r.paths) == multiset(HeaderCandidates(paths, name))
  {
    if '/' in name then
      if name in paths then Unique(name) else NoMatch
    else
      StringLeTotalPreorder();
      var c := HeaderCandidates(paths, name);
      var m := SortBy(c, StringLe);
      if |m| == 0 then
        assert forall p :: p in c ==> p in multiset(m);
        NoMatch
      else if |m| == 1 then
        assert m == [m[0]];
        assert m[0] in multiset(c);
        assert m[0] in c;
        Unique(m[0])
      else
        assert m[0] in multiset(c);
        assert m[0] in c;
        Ambiguous(m)
  }

  /** A row of `file_edges`. */
  datatype FileEdge = FileEdge(edgeType: string, srcFile: string, dstFile: string, lineNumber: int)

  /** The statistics dictionary of `resolve_includes`. */
  datatype IncludeReport = IncludeReport(totalRawRefs: nat, resolvedEdges: nat, unresolved: nat, ambiguous: nat)

  /** The counters and edges of the includes loop. */
  datatype IncludeTally = IncludeTally(unresolved: nat, ambiguous: nat, edges: seq<FileEdge>)

  function TallyIncludes(refs: seq<ReferenceIngestor.RawRef>, paths: seq<string>): IncludeTally
  {
    if |refs| == 0 then IncludeTally(0, 0, [])
    else
      var n := |refs| - 1;
      IncludeNext(TallyIncludes(refs[..n], paths), refs[n].row, ResolveHeaderPath(refs[n].row.querySymbol, paths))
  }

  /** One include reference counted: unresolved, ambiguous, or one INCLUDES edge to the header it resolved to. */
  function IncludeNext(t: IncludeTally, r: ReferenceIngestor.PendingRow, m: HeaderMatch): IncludeTally
  {
    match m
    case NoMatch => t.(unresolved := t.unresolved + 1)
    case Ambiguous(_) => t.(ambiguous := t.ambiguous + 1)
    case Unique(p) => t.(edges := t.edges + [FileEdge("INCLUDES", r.sourceFile, p, r.lineNumber)])
  }

  /** One reference more for the loop of `resolve_includes`. */
  lemma TallyIncludesStep(refs: seq<ReferenceIngestor.RawRef>, paths: seq<string>, i: nat)
    requires i < |refs|
    ensures TallyIncludes(refs[..i + 1], paths) ==
      IncludeNext(TallyIncludes(refs[..i], paths), refs[i].row, ResolveHeaderPath(refs[i].row.querySymbol, paths))
  {
    assert refs[..i + 1][..i] == refs[..i];
  }

  /** The statistics of `resolve_includes` over `refs`. */
  function IncludeReportOf(refs: seq<ReferenceIngestor.RawRef>, paths: seq<string>): IncludeReport
  {
    if |refs| == 0 then IncludeReport(0, 0, 0, 0)
    else
      var t := TallyIncludes(refs, paths);
      IncludeReport(|refs|, |t.edges|, t.unresolved, t.ambiguous)
  }

  /** resolved + unresolved + ambiguous == total. */
  lemma {:induction false} TallyIncludesPartition(refs: seq<ReferenceIngestor.RawRef>, paths: seq<string>)
    ensures var t := TallyIncludes(refs, paths);
      t.unresolved + t.ambiguous + |t.edges| == |refs|
  {
    if |refs| > 0 {
      TallyIncludesPartition(refs[..|refs| - 1], paths);
    }
  }

  lemma IncludeReportPartition(refs: seq<ReferenceIngestor.RawRef>, paths: seq<string>)
    ensures var s := IncludeReportOf(refs, paths);
      s.resolvedEdges + s.unresolved + s.ambiguous == s.totalRawRefs && s.totalRawRefs == |refs|
  {
    TallyIncludesPartition(refs, paths);
  }

  /** Every INCLUDES edge goes from an includer to the single indexed header that its name resolved to. */
  lemma {:induction false} TallyIncludesEdges(refs: seq<ReferenceIngestor.RawRef>, paths: seq<string>)
    ensures forall e :: e in TallyIncludes(refs, paths).edges ==>
      && e.edgeType == "INCLUDES"
      && exists r :: r in refs && e.srcFile == r.row.sourceFile && e.lineNumber == r.row.lineNumber &&
                     ResolveHeaderPath(r.row.querySymbol, paths) == Unique(e.dstFile)
  {
    if |refs| > 0 {
      var n := |refs| - 1;
      TallyIncludesEdges(refs[..n], paths);
      assert forall r :: r in refs[..n] ==> r in refs;
      assert refs[n] in refs;
    }
  }

  /* ---------- the resolver ---------- */

  /** A resolver and the two edge tables it writes. */
  class Resolver {
    var stats: Stats
    var symbolEdges: seq<SymbolEdge>
    var fileEdges: seq<FileEdge>

    constructor (symbolEdges0: seq<SymbolEdge>, fileEdges0: seq<FileEdge>)
      ensures stats == ZeroStats && symbolEdges == symbolEdges0 && fileEdges == fileEdges0
    {
      stats := ZeroStats;
      symbolEdges := symbolEdges0;
      fileEdges := fileEdges0;
    }

    /** The steps for one callees row, each ending the row's turn as `continue` does. */
    static method Classify(r: ReferenceIngestor.PendingRow, symbols: seq<Indexer.SymbolRow>) returns (o: CallOutcome)
      ensures o == ClassifyCall(r, symbols)
    {
      var callee := ExtractCallee(r.lineText);
      if callee.None? {
        return NoCallee;
      }
      var src := ResolveSrc(CandidatesOf(symbols, r.querySymbol), r.sourceFile);
      if !Resolved(src) {
        return SrcUnresolved;
      }
      var dst := ResolveDst(CandidatesOf(symbols, callee.value), r.sourceFile);
      if !Resolved(dst) {
        return DstUnresolved;
      }
      o := CallEdge(SymbolEdge("CALLS", src.value, dst.value, r.sourceFile, r.lineNumber));
    }

    /** The loop of `resolve_callees`: the three miss counters and the batch of edges it gathers. */
    static method CallLoop(refs: seq<ReferenceIngestor.RawRef>, symbols: seq<Indexer.SymbolRow>) returns (t: CallTally)
      ensures t == TallyCalls(refs, symbols)
    {
      t := CallTally(0, 0, 0, []);
      var i := 0;
      while i < |refs|
        invariant 0 <= i <= |refs|
        invariant t == TallyCalls(refs[..i], symbols)
      {
        assert refs[..i + 1][..i] == refs[..i];
        var o := Classify(refs[i].row, symbols);
        t := Step(t, o);
        i := i + 1;
      }
      assert refs[..i] == refs;
    }

    /** The part of `resolve_callees` that runs once there are rows: the loop, then the edge batch. */
    method ResolveRows(refs: seq<ReferenceIngestor.RawRef>, symbols: seq<Indexer.SymbolRow>)
      modifies this
      ensures stats == StatsAfter(old(stats), |refs|, TallyCalls(refs, symbols))
      ensures symbolEdges == old(symbolEdges) + TallyCalls(refs, symbols).edges
      ensures fileEdges == old(fileEdges)
    {
      var t := CallLoop(refs, symbols);
      stats := StatsAfter(stats, |refs|, t);
      symbolEdges := symbolEdges + t.edges;
    }

    /** `resolve_callees` over the `raw_references` rows `raw` and the symbol table `symbols`. */
    method ResolveCallees(raw: seq<ReferenceIngestor.RawRef>, symbols: seq<Indexer.SymbolRow>, clearExisting: bool)
      returns (report: CallReport)
      modifies this
      ensures var refs := RowsOfType(raw, "callees");
        var kept := if clearExisting then WithoutEdgeType(old(symbolEdges), SymbolEdgeType, "CALLS") else old(symbolEdges);
        && stats == CallStatsAfter(old(stats), refs, symbols)
        && symbolEdges == kept + (if |refs| == 0 then [] else TallyCalls(refs, symbols).edges)
        && report == ReportOf(stats)
      ensures fileEdges == old(fileEdges)
    {
      if clearExisting {
        symbolEdges := WithoutEdgeType(symbolEdges, SymbolEdgeType, "CALLS");
      }
      var refs := RowsOfType(raw, "callees");
      if |refs| == 0 {
        stats := stats.(totalRawRefs := 0);
      } else {
        ResolveRows(refs, symbols);
      }
      report := ReportOf(stats);
    }

    /** The loop of `resolve_includes`, with its local counters. */
    method IncludeLoop(refs: seq<ReferenceIngestor.RawRef>, paths: seq<string>)
      returns (unresolved: nat, ambiguous: nat, edges: seq<FileEdge>)
      ensures IncludeTally(unresolved, ambiguous, edges) == TallyIncludes(refs, paths)
    {
      unresolved, ambiguous, edges := 0, 0, [];
      var i := 0;
      while i < |refs|
        invariant 0 <= i <= |refs|
        invariant IncludeTally(unresolved, ambiguous, edges) == TallyIncludes(refs[..i], paths)
      {
        TallyIncludesStep(refs, paths, i);
        var r := refs[i].row;
        var resolved := ResolveHeaderPath(r.querySymbol, paths);
        match resolved {
          case NoMatch =>
            unresolved := unresolved + 1;
          case Ambiguous(_) =>
            ambiguous := ambiguous + 1;
          case Unique(p) =>
            edges := edges + [FileEdge("INCLUDES", r.sourceFile, p, r.lineNumber)];
        }
        i := i + 1;
      }
      assert refs[..i] == refs;
    }

    /** `resolve_includes` over the `raw_references` rows `raw` and the paths of the `files` table. */
    method ResolveIncludes(raw: seq<ReferenceIngestor.RawRef>, paths: seq<string>, clearExisting: bool)
      returns (report: IncludeReport)
      modifies this
      ensures var refs := RowsOfType(raw, "includes");
        var kept := if clearExisting then WithoutEdgeType(old(fileEdges), FileEdgeType, "INCLUDES") else old(fileEdges);
        && report == IncludeReportOf(refs, paths)
        && fileEdges == kept + (if |refs| == 0 then [] else TallyIncludes(refs, paths).edges)
      ensures stats == old(stats) && symbolEdges == old(symbolEdges)
    {
      if clearExisting {
        fileEdges := WithoutEdgeType(fileEdges, FileEdgeType, "INCLUDES");
      }
      var refs := RowsOfType(raw, "includes");
      if |refs| == 0 {
        return IncludeReport(0, 0, 0, 0);
      }
      var unresolved, ambiguous, edges := IncludeLoop(refs, paths);
      var resolvedEdges := 0;
      if |edges| > 0 {
        fileEdges := fileEdges + edges;
        resolvedEdges := |edges|;
      }
      report := IncludeReport(|refs|, resolvedEdges, unresolved, ambiguous);
    }
  }

  /** The rows `DELETE FROM <edge table> WHERE edge_type = ?` keeps, for an edge table whose rows carry
      their type as `typeOf`. */
  function WithoutEdgeType<E(!new)>(edges: seq<E>, typeOf: E -> string, edgeType: string): (r: seq<E>)
    ensures forall e :: e in r <==> e in edges && typeOf(e) != edgeType
    ensures |r| <= |edges|
  {
    if |edges| == 0 then []
    else
      var n := |edges| - 1;
      assert edges == edges[..n] + [edges[n]];
      WithoutEdgeType(edges[..n], typeOf, edgeType) + (if typeOf(edges[n]) != edgeType then [edges[n]] else [])
  }

  function SymbolEdgeType(e: SymbolEdge): string {
    e.edgeType
  }

  function FileEdgeType(e: FileEdge): string {
    e.edgeType
  }
}
