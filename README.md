# srcodex indexer and file-tree service, modelled in Dafny

This project models the core of a C code explorer: the indexer that turns a
source tree into a SQLite database, and the backend service that browses
and searches it. The model covers:

- the index store (`indexer/indexer.py`): files, symbols, references, the
  full-text search projection and metadata, with per-file refresh, clearing,
  the metadata upsert and the batch loop of `index_directory`;
- the ctags tag normaliser (`indexer/ctags_parser.py`) and the ctags kind
  compatibility check (`indexer/ctags_compat.py`);
- the cscope client's output parser, error classification and query table
  (`indexer/cscope_client.py`);
- the raw-reference ingestor (`indexer/reference_ingestor.py`) and the
  resolver that turns raw references into CALLS and INCLUDES edges
  (`indexer/reference_resolver.py`);
- file discovery (`indexer/explorer.py`);
- the file tree and the three searches of `backend/services/file_tree.py`.

Every table is a value (`seq` or `map`), and every SQL statement is a
function on it. The index store is a class whose methods update those
fields. Python's `sorted` and `ORDER BY` are a stable insertion sort.

Everything the code gets from outside is a parameter:

- **ctags output** is a sequence of decoded lines.
- **Each cscope run** is an outcome record, or a function from command line to outcome.
- **The directory walk** is a list of entries below the root.
- **The contents of each readable file** are a map from path to size, SHA-1 and mtime.
- **`parse_root`'s result** is a map from canonical path to symbol dictionaries.

One file per source module:

| file | models |
|---|---|
| `wrappers.dfy` | Option and Result |
| `strings.dfy` | ASCII lower case, containment, split/join, strip, decimal integers |
| `sorting.dfy` | stable insertion sort, lexicographic orders |
| `paths.dfy` | POSIX `PurePath`: parse, `as_posix`, `relative_to`, `name`, `suffix` |
| `ctags_parser.dfy`, `ctags_compat.dfy`, `cscope_client.dfy` | the ctags and cscope front ends |
| `reference_ingestor.dfy`, `reference_resolver.dfy` | raw references and edges |
| `explorer.dfy` | file discovery |
| `indexer.dfy` | the index store |
| `file_tree.dfy` | the tree and search service |

The store's invariant (`Indexer.ValidTables`) has three parts:

- The search projection is exactly the projection of the live symbols, in order.
- Symbol ids increase and are never reused (this relies on the `symbols` key being `AUTOINCREMENT`; see below).
- Every reference points at a live symbol.

The constructor and `Indexer.Index.Clear` establish it. Every other method of `Indexer.Index` that changes the tables requires it and keeps it. `Indexer.Index.InsertSymbols` also requires its rows to be numbered from the next key, as SQLite numbers them, and `Indexer.Index.WriteTables` requires the tables it writes to satisfy it. The metadata methods leave the tables unchanged.

## Model

| member | source | states |
|---|---|---|
| CscopeClient.WordPrefix | indexer/cscope_client.py:92 | the result is a prefix of the text, contains no white space, and is followed by white space unless it is the whole text |
| CscopeClient.SplitWs | indexer/cscope_client.py:92 | `split(None, maxsplit)` yields at most maxsplit+1 pieces, each starting with a non-space character, and the first maxsplit of them are single words |
| CscopeClient.ParseLine | indexer/cscope_client.py:88-107 | a line is skipped exactly when it is empty or has fewer than three fields; a third field that is not an integer is reported as that field; otherwise the reference holds fields 0, 1, the integer of field 2 and field 3 or "" |
| CscopeClient.Collect | indexer/cscope_client.py:85-109 | a successful parse yields at most one reference per line |
| CscopeClient.ClassifyLines | indexer/cscope_client.py:87-100 | every line is classified on its own, index by index |
| CscopeClient.ParseOutput | indexer/cscope_client.py:74-109 | `_parse_output` equals the classification of the stripped, newline-split output collected in order |
| CscopeClient.ParseLines | indexer/cscope_client.py:87-109 | the loop over the lines equals collecting their classifications |
| CscopeClient.CollectResults | indexer/cscope_client.py:87-109 | the loop appends the reference of every parsed line in order, skips skipped lines and stops at the first bad line number |
| CscopeClient.CollectSnoc | indexer/cscope_client.py:87-107 | one more line: an earlier failure stays, a skipped line adds nothing, a bad number fails, a parsed line appends its reference |
| CscopeClient.CollectStep | indexer/cscope_client.py:87-107 | the same step stated on prefixes of one output |
| CscopeClient.CollectErrSticky | indexer/cscope_client.py:99 | once a line raises, the whole parse fails with that line's error |
| CscopeClient.CollectConcat | indexer/cscope_client.py:87-109 | parsing two blocks of lines yields the references of the first block followed by those of the second |
| CscopeClient.CollectOne | indexer/cscope_client.py:88-107 | a single line yields no reference, an error, or exactly the reference it parses to |
| CscopeClient.WordPrefixOf | indexer/cscope_client.py:92 | the first word of a word followed by white space or nothing is that word |
| CscopeClient.IntToStringIsWord | indexer/cscope_client.py:99 | a printed line number is a single word |
| CscopeClient.SplitWsStep | indexer/cscope_client.py:92 | splitting "word rest" yields the word followed by the split of the rest with one split fewer |
| CscopeClient.SplitThreeWords | indexer/cscope_client.py:92-100 | three words separated by spaces split into exactly those three fields |
| CscopeClient.SplitThreeWordsText | indexer/cscope_client.py:92-100 | three words and a text split into the three words and the whole text |
| CscopeClient.SplitTwoWordsText | indexer/cscope_client.py:92 | two words and a text split twice into the two words and the whole text |
| CscopeClient.SplitFormatLine | indexer/cscope_client.py:78-79 | a reference written in cscope's line format splits into its file, function, number and (if any) text |
| CscopeClient.SplitWsLastWord | indexer/cscope_client.py:92 | a single word splits to itself |
| CscopeClient.ParseFormatLine | indexer/cscope_client.py:78-107 | round trip: a reference written as a cscope line parses back to the same reference |
| CscopeClient.QueryArgv | indexer/cscope_client.py:53-54 | the command runs `cscope` with four arguments, the symbol last |
| CscopeClient.ClassifyOutcome | indexer/cscope_client.py:52-72 | cscope missing raises; exit 1 with empty stderr means no results; any other non-zero exit raises with stderr; exit 0 returns the parsed stdout, or the error of its bad line number |
| CscopeClient.QueryFailedExactly | indexer/cscope_client.py:63-67 | a query fails with cscope's error text if and only if it exits non-zero other than 1 with empty stderr |
| CscopeClient.QueryKindOf | indexer/cscope_client.py:183-196 | exactly the six names of the query table are accepted |
| CscopeClient.QueryNumber | indexer/cscope_client.py:116-142 | every query number is at most 8 |
| CscopeClient.QueryNumberInjective | indexer/cscope_client.py:116-142 | different query kinds run different cscope queries |
| CscopeClient.QueryCscope | indexer/cscope_client.py:164-198 | an unknown query name raises ValueError; a known one runs the query number of its `find_*` method and classifies the outcome |
| CscopeClient.QueryNumbers | indexer/cscope_client.py:116-142 | symbol, definition, callees, callers, text and includes run queries 0, 1, 2, 3, 4 and 8 |
| CtagsCompat.CoreKindsExpected | indexer/ctags_compat.py:17-41 | every core kind is one of the expected kinds |
| CtagsCompat.ExpectedKindsAreTypeMapKeys | indexer/ctags_compat.py:16-29 | the expected kinds are exactly the kinds the normaliser's kind table maps (ctags_parser.py lines 157-169) |
| CtagsCompat.LineKind | indexer/ctags_compat.py:104-112 | a line contributes a kind exactly when it is not blank, not a `!` pseudo-tag, decodes as JSON and carries a non-empty kind, and then it contributes that kind |
| CtagsCompat.ObservedKindsOf | indexer/ctags_compat.py:102-112 | no observed kind is empty |
| CtagsCompat.ObservedKindsExactly | indexer/ctags_compat.py:102-112 | a kind is observed if and only if some line contributes it |
| CtagsCompat.ObservedKinds | indexer/ctags_compat.py:102-112 | the loop collects exactly the kinds the lines contribute |
| CtagsCompat.Check | indexer/ctags_compat.py:114-142 | the check fails if and only if some core kind was not observed, and then names exactly the missing core kinds (never none); on success it warns about exactly the observed kinds outside the expected set |
| CtagsCompat.UnexpectedKindsOnlyWarn | indexer/ctags_compat.py:135-142 | once all core kinds are observed, extra kinds never make the check fail; they are all warned about |
| CtagsParser.NormalizeType | indexer/ctags_parser.py:145-170 | a typedef changes type exactly when its typeref is non-empty and names a struct, union or enum, and then becomes the aggregate whose `name:` prefixes the typeref; any other kind goes through the kind table and an unknown kind is kept as it is; the result is always a value of the kind table or the unknown kind itself |
| CtagsParser.NormalizeTypeIdempotent | indexer/ctags_parser.py:145-170 | normalising a normalised type again changes nothing |
| CtagsParser.FileScopeFlag | indexer/ctags_parser.py:190-203 | the flag is unknown exactly when the tag has neither `file` nor `extras`; otherwise it is 0 or 1, decided by `file` when present and else by `fileScope` occurring in `extras` |
| CtagsParser.ResolveParent | indexer/ctags_parser.py:181-183 | a named parent is kept; an anonymous parent is renamed through the typedef table when it has an entry |
| CtagsParser.ParseTag | indexer/ctags_parser.py:115-220 | no symbol exactly for a tag without name or kind or with an anonymous name; otherwise name, line (0 when absent), signature, typeref and path are copied, the type is normalised, the scope pair is set together and only for a parent that is still named after resolution, and the legacy scope is "static" exactly when the file-local flag is 1, else "global" |
| CtagsParser.TypedefTarget | indexer/ctags_parser.py:95-102 | a typedef records only an anonymous target and only when it has a name |
| CtagsParser.RawTags | indexer/ctags_parser.py:86-104 | the first pass collects at most one tag per line |
| CtagsParser.AnonMap | indexer/ctags_parser.py:84-102 | the table maps only anonymous names, and only to non-empty names |
| CtagsParser.AnonMapLastWins | indexer/ctags_parser.py:95-102 | the table maps an anonymous name to the name of the last typedef that targets it |
| CtagsParser.AnonMapOnlyRecorded | indexer/ctags_parser.py:95-102 | an anonymous name no typedef targets is absent from the table |
| CtagsParser.SymbolsOf | indexer/ctags_parser.py:106-113 | the second pass yields at most one symbol per tag, none with an anonymous name, all with the file's path |
| CtagsParser.SymbolsOfConcat | indexer/ctags_parser.py:106-113 | the second pass keeps input order: it maps two halves of its input separately and concatenates |
| CtagsParser.ParseFile | indexer/ctags_parser.py:79-113 | `parse_file` after ctags has run equals the second pass over the first pass's tags with the first pass's complete table, so a typedef after its members still renames them |
| ReferenceIngestor.NormalizePath | indexer/reference_ingestor.py:31-56 | the stored path is never empty, and it is absolute exactly when the cscope path is absolute and outside the source root |
| ReferenceIngestor.NormalizeUnderRoot | indexer/reference_ingestor.py:47-49 | an absolute cscope path below the source root becomes its POSIX path relative to the root |
| ReferenceIngestor.NormalizeOutsideRoot | indexer/reference_ingestor.py:47-52 | an absolute cscope path outside the source root is stored as its own POSIX path, still absolute |
| ReferenceIngestor.NormalizeRelativeUnchanged | indexer/reference_ingestor.py:54-56 | a relative path already in canonical POSIX form is stored unchanged |
| ReferenceIngestor.NormalizeIdempotent | indexer/reference_ingestor.py:31-56 | normalising a normalised path changes nothing |
| ReferenceIngestor.FunctionRowsOf | indexer/reference_ingestor.py:65-68 | the query selects exactly the (id, name) pairs of the symbols whose type is function |
| ReferenceIngestor.IdLeTotalPreorder | indexer/reference_ingestor.py:67 | ordering by id is total and transitive |
| ReferenceIngestor.AllFunctions | indexer/reference_ingestor.py:58-69 | `get_all_functions` returns the function symbols' (id, name) pairs ordered by id, a permutation of the selected rows |
| ReferenceIngestor.RowsFor | indexer/reference_ingestor.py:109-118 | one pending row per reference, in order: query type "callees", the queried function, the normalised file, cscope's function, line number and text |
| ReferenceIngestor.FlattenConcat | indexer/reference_ingestor.py:103-118 | the batch of two blocks of functions is the first block's rows followed by the second's |
| ReferenceIngestor.FlattenMember | indexer/reference_ingestor.py:103-118 | every row of the batch comes from the rows of one function |
| ReferenceIngestor.Chunks | indexer/reference_ingestor.py:103-123 | one block of rows per function, in the order of the functions, each the rows of that function's query |
| ReferenceIngestor.BatchSnoc | indexer/reference_ingestor.py:103-123 | one iteration of the loop appends the queried function's rows, none when its query fails |
| ReferenceIngestor.BatchRowsAreCallees | indexer/reference_ingestor.py:111-118 | every batched row is a callees row whose query symbol is the name of one of the functions |
| ReferenceIngestor.BatchConcat | indexer/reference_ingestor.py:103-123 | batching is done function by function: the batch of two blocks is the concatenation of their batches |
| ReferenceIngestor.FailedQueryAddsNothing | indexer/reference_ingestor.py:120-123 | a function whose query raises contributes no rows and does not stop the others |
| ReferenceIngestor.FailedQueryAlone | indexer/reference_ingestor.py:120-123 | a single function whose query raises yields an empty batch |
| ReferenceIngestor.BatchSize | indexer/reference_ingestor.py:103-140 | the batch holds exactly as many rows as the successful queries returned references |
| ReferenceIngestor.WithoutCallees | indexer/reference_ingestor.py:85-87 | clearing keeps exactly the stored raw references whose query type is not callees |
| ReferenceIngestor.Numbered | indexer/reference_ingestor.py:126-134 | the inserted rows receive consecutive ids from the next free id, in batch order |
| ReferenceIngestor.Ingestor.AppendRows | indexer/reference_ingestor.py:109-118 | the inner loop appends the rows of one function's references to the batch |
| ReferenceIngestor.Ingestor.BuildBatch | indexer/reference_ingestor.py:99-123 | the loop over the functions builds exactly the batch of their successful queries |
| ReferenceIngestor.Ingestor.IngestCallees | indexer/reference_ingestor.py:71-140 | the table becomes the kept rows (callees rows cleared when asked) followed by the batch numbered from the next id; the id counter moves past them and the batch size is returned (0 when there are no functions) |
| ReferenceResolver.TakeWord | indexer/reference_resolver.py:61 | the identifier characters at the start of a text: a prefix made only of word characters and not followed by one |
| ReferenceResolver.SkipSpaces | indexer/reference_resolver.py:61 | `\s*` skips exactly the leading white space: what is left is a suffix that does not start with white space |
| ReferenceResolver.FirstCallee | indexer/reference_resolver.py:61-78 | from a position on, a callee is found if and only if some later position starts a non-keyword `IDENT(` match, and the result is the identifier at the first such position |
| ReferenceResolver.ExtractCallee | indexer/reference_resolver.py:46-78 | `_extract_callee_from_line` finds a callee if and only if the line holds a non-keyword `IDENT\s*(` match at a word boundary, and returns the identifier of the leftmost one |
| ReferenceResolver.CalleeIsIdentifier | indexer/reference_resolver.py:31-34 | an extracted callee is a C identifier and never one of the excluded keywords |
| ReferenceResolver.CandidatesOf | indexer/reference_resolver.py:94-100 | the candidates are exactly the (id, file) pairs of the function symbols with that name |
| ReferenceResolver.FirstInFile | indexer/reference_resolver.py:109-111 | the index of the first candidate in the given file, or -1 when none is |
| ReferenceResolver.CFiles | indexer/reference_resolver.py:156 | exactly the candidates whose file ends with `.c` |
| ReferenceResolver.ResolveSrc | indexer/reference_resolver.py:80-114 | no candidate: unresolved; one: that one; several: the first in the caller's file, and unresolved if and only if none is in it; a result is always one of the candidates |
| ReferenceResolver.ResolveDst | indexer/reference_resolver.py:116-161 | no candidate: unresolved; one: that one; several: the first in the caller's file, else the single `.c` candidate when there is exactly one, else unresolved; a result is always one of the candidates |
| ReferenceResolver.DstExtendsSrc | indexer/reference_resolver.py:80-161 | whenever the caller rule resolves a name, the callee rule resolves it to the same symbol |
| ReferenceResolver.RawIdLeTotalPreorder | indexer/reference_resolver.py:190 | ordering raw references by id is total and transitive |
| ReferenceResolver.OfQueryType | indexer/reference_resolver.py:186-190 | exactly the raw references of the given query type |
| ReferenceResolver.RowsOfType | indexer/reference_resolver.py:186-193 | the rows of the query type, ordered by id, a permutation of the selected rows |
| ReferenceResolver.ClassifyCall | indexer/reference_resolver.py:210-240 | a row is skipped for parsing exactly when its line has no callee; an edge is a CALLS edge at the row's file and line whose two symbol ids are non-zero (an id 0 counts as unresolved, as `if not id` does) |
| ReferenceResolver.CallEdgeEndpoints | indexer/reference_resolver.py:219-240 | an edge joins a function symbol named like the queried caller to a function symbol named like the extracted callee |
| ReferenceResolver.CallOutcomes | indexer/reference_resolver.py:209-240 | every row is classified on its own, in id order |
| ReferenceResolver.Step | indexer/reference_resolver.py:212-240 | each row adds one to exactly one of the three miss counters or to the batch |
| ReferenceResolver.TallyCallsIsTally | indexer/reference_resolver.py:209-240 | the loop's counters and batch are those of the rows' outcomes taken in order |
| ReferenceResolver.TallyPartition | indexer/reference_resolver.py:209-240 | the three miss counters and the batch size add up to the number of outcomes |
| ReferenceResolver.TallyEdges | indexer/reference_resolver.py:233-240 | an edge is in the batch if and only if some row produced it |
| ReferenceResolver.TallyCallsPartition | indexer/reference_resolver.py:209-240 | every callees row is counted exactly once: as skipped, unresolved caller, unresolved callee or an edge |
| ReferenceResolver.TallyCallsEdges | indexer/reference_resolver.py:233-240 | every batched edge is a CALLS edge at the file and line of some row |
| ReferenceResolver.StatsAfter | indexer/reference_resolver.py:194-253 | a non-empty pass sets the total to the number of callees rows, only adds to the three miss counters, and changes the edge count only to a non-zero batch size |
| ReferenceResolver.CallStatsPartition | indexer/reference_resolver.py:194-270 | for a fresh resolver the reported skipped, unresolved and resolved counts add up to the total number of callees rows |
| ReferenceResolver.HeaderCandidates | indexer/reference_resolver.py:434-441 | exactly the indexed paths equal to the name or ending in `/name` |
| ReferenceResolver.ResolveHeaderPath | indexer/reference_resolver.py:410-449 | a name with `/` resolves to itself exactly when that path is indexed; otherwise no match exactly when no path matches, a unique match is the only matching path, and an ambiguous answer lists all matching paths, at least two, sorted |
| ReferenceResolver.TallyIncludesStep | indexer/reference_resolver.py:344-368 | one reference adds one to unresolved, one to ambiguous, or one INCLUDES edge to the header it resolved to |
| ReferenceResolver.TallyIncludesPartition | indexer/reference_resolver.py:344-368 | unresolved, ambiguous and edges add up to the number of includes rows |
| ReferenceResolver.IncludeReportPartition | indexer/reference_resolver.py:329-408 | in the returned dictionary resolved, unresolved and ambiguous add up to the total, which is the number of includes rows |
| ReferenceResolver.TallyIncludesEdges | indexer/reference_resolver.py:362-368 | every edge is an INCLUDES edge from some row's file and line to the unique header its name resolved to |
| ReferenceResolver.Resolver.Classify | indexer/reference_resolver.py:212-240 | the three steps for one row end as the row's outcome says |
| ReferenceResolver.Resolver.CallLoop | indexer/reference_resolver.py:209-240 | the loop computes the counters and batch of the rows in order |
| ReferenceResolver.Resolver.ResolveRows | indexer/reference_resolver.py:202-255 | with rows present: the total is set, the miss counters are added to the resolver's counters, the edge count is set only when edges were found, and the batch is appended to the edge table |
| ReferenceResolver.Resolver.ResolveCallees | indexer/reference_resolver.py:163-260 | `resolve_callees`: CALLS edges are cleared when asked, the callees rows are resolved in id order, the batch is appended, include edges are untouched, and the stats dictionary reports the resolver's counters (only the total is reset when there are no rows) |
| ReferenceResolver.Resolver.IncludeLoop | indexer/reference_resolver.py:344-368 | the loop computes the counters and edges of the includes rows in order |
| ReferenceResolver.Resolver.ResolveIncludes | indexer/reference_resolver.py:296-408 | `resolve_includes`: INCLUDES edges are cleared when asked, the edges of the includes rows are appended, an all-zero report is returned when there are none, and the call graph and its counters are untouched |
| ReferenceResolver.WithoutEdgeType | indexer/reference_resolver.py:179-182 | clearing an edge type keeps exactly the edges of the other types and never adds a row; the same filter serves the `file_edges` delete of `resolve_includes` (lines 312-315) |
| Explorer.NewDiscovery | indexer/explorer.py:36-56 | a missing root raises FileNotFoundError and a root that is not a directory raises NotADirectoryError, both with the root as given; otherwise the discovery holds the resolved root, the given extensions and ignore set, or the defaults when they are missing or empty |
| Explorer.AnyIgnored | indexer/explorer.py:100-104 | the loop answers true if and only if some part is an ignored name |
| Explorer.ShouldIgnore | indexer/explorer.py:96-104 | a path is ignored if and only if one of its parts, the root and the directories above the source root included, is an ignored name |
| Explorer.KeptForSpec | indexer/explorer.py:69-74 | the inner loop keeps exactly the walked entries whose name ends with the extension and that are not ignored |
| Explorer.KeptAllSpec | indexer/explorer.py:68-74 | the two loops keep exactly the walked entries kept for some extension |
| Explorer.PosixAll | indexer/explorer.py:73-74 | one relative POSIX path per kept entry |
| Explorer.PosixAllConcat | indexer/explorer.py:68-74 | the paths of two blocks of entries are appended in walk order |
| Explorer.PosixAllSpec | indexer/explorer.py:73-74 | a string is listed if and only if it is the relative POSIX path of a kept entry |
| Explorer.UnderAll | indexer/explorer.py:88-92 | one absolute path per kept entry |
| Explorer.UnderAllConcat | indexer/explorer.py:87-92 | the absolute paths of two blocks of entries are appended in walk order |
| Explorer.UnderAllSpec | indexer/explorer.py:88-92 | a path is listed if and only if it is the source root joined with a kept entry |
| Explorer.PathLeTotalPreorder | indexer/explorer.py:94 | the order `sorted` uses on paths (by parts) is total and transitive, so sorting is well defined |
| Explorer.Keep | indexer/explorer.py:69-71 | one step of the inner loop keeps an entry exactly when it matches the glob and is not ignored |
| Explorer.RelativeOfUnder | indexer/explorer.py:73 | `relative_to` the source root of a path below it gives back the walked entry |
| Explorer.RelativeStep | indexer/explorer.py:69-74 | one iteration of the inner loop of `discover_files` appends the entry's relative path exactly when it is kept |
| Explorer.AbsoluteStep | indexer/explorer.py:88-92 | one iteration of the inner loop of `discover_files_absolute` appends the entry's absolute path exactly when it is kept |
| Explorer.AppendRelative | indexer/explorer.py:69-74 | the inner loop of `discover_files` appends the relative paths of the kept entries in walk order |
| Explorer.DiscoverFiles | indexer/explorer.py:58-76 | `discover_files` returns the sorted relative paths of the entries kept for each extension in turn |
| Explorer.AppendAbsolute | indexer/explorer.py:88-92 | the inner loop of `discover_files_absolute` appends the absolute paths of the kept entries in walk order |
| Explorer.DiscoverFilesAbsolute | indexer/explorer.py:78-94 | `discover_files_absolute` returns the sorted absolute paths of the entries kept for each extension in turn |
| Explorer.DiscoveredFilesSpec | indexer/explorer.py:58-76 | the result is sorted and lists a string if and only if it is the relative path of a walked entry that matches some extension and is not ignored |
| Explorer.DiscoveredAbsoluteSpec | indexer/explorer.py:78-94 | the result is sorted, lists a path if and only if it is the absolute path of a walked entry that matches some extension, and no listed path has an ignored part |
| Explorer.IgnoredRootFindsNothing | indexer/explorer.py:96-104 | when a directory above the files, the source root included, has an ignored name, both discoveries return nothing |
| Explorer.NoneKeptFor | indexer/explorer.py:69-71 | under such a root the inner loop keeps nothing |
| Explorer.IgnoredRootDropsEntry | indexer/explorer.py:70-71 | under such a root every entry is ignored |
| Explorer.NoneKeptAll | indexer/explorer.py:68-71 | under such a root no loop keeps anything |
| Explorer.Bump | indexer/explorer.py:117 | the count of the extension goes up by one (from 0 when new), every other count is unchanged, and the extension becomes a key |
| Explorer.TotalRemove | indexer/explorer.py:114-117 | the sum of the counts does not depend on which key is taken first |
| Explorer.TotalBump | indexer/explorer.py:117 | counting one more file raises the sum of the counts by one |
| Explorer.SameWithout | indexer/explorer.py:117 | counting a file leaves the other extensions' counts as they were |
| Explorer.ExtCounts | indexer/explorer.py:114-117 | every counted extension has a positive count and is the suffix of some file |
| Explorer.ExtCountsAgree | indexer/explorer.py:114-117 | an extension is a key if and only if some file has it, and its count is the number of files with it |
| Explorer.ExtCountsTotal | indexer/explorer.py:114-120 | the counts add up to the number of files |
| Explorer.ExtCountsStep | indexer/explorer.py:115-117 | one iteration of the counting loop bumps the count of that file's suffix |
| Explorer.ExtensionFor | indexer/explorer.py:116 | the extension of a file is the suffix of its path |
| Explorer.CountExtensions | indexer/explorer.py:114-117 | the counting loop builds the per-suffix counts of the files |
| Explorer.GetStats | indexer/explorer.py:106-123 | `get_stats` reports the number of discovered files, their per-suffix counts and the source root |
| Explorer.StatsAddUp | indexer/explorer.py:106-123 | the per-extension counts add up to the total, and each is the number of discovered files with that suffix |
| Explorer.DiscoverUnder | indexer/explorer.py:127-129 | the module-level `discover_files` raises the constructor's errors, and otherwise returns the files of a discovery with the default ignore set |
| Paths.RelativeTo | indexer/explorer.py:73 | `relative_to` succeeds exactly when the root's parts are a prefix of the path's (both absolute or both relative), and the root's parts followed by the result's are the path's |
| Paths.Suffix | indexer/explorer.py:116 | a non-empty suffix starts with a dot, has at least one more character and no further dot |
| Paths.ParseAsPosix | indexer/explorer.py:73-74 | round trip: the POSIX string of a well-formed path parses back to the same path |
| Paths.AsPosixParse | indexer/explorer.py:73-74 | round trip: a canonical path string survives parsing and `as_posix` unchanged |
| Indexer.Projection | indexer/indexer.py:167-201 | the search projection holds one entry per symbol, in symbol order, keyed by the symbol's id |
| Indexer.SymbolsNotIn | indexer/indexer.py:167 | the delete keeps exactly the symbols of other files, in table order |
| Indexer.OfFile | indexer/indexer.py:167 | exactly the symbols stored under a path, in table order |
| Indexer.RefsNotTo | indexer/indexer.py:39-40 | the cascade keeps exactly the references whose symbol was not deleted |
| Indexer.InsertRows | indexer/indexer.py:194-201 | inserting rows advances the next surrogate key by their number |
| Indexer.Language | indexer/indexer.py:160-162 | the language is "c" exactly when the suffix is `.c` or `.h`, else "unknown" |
| Indexer.RowOf | indexer/indexer.py:177-192 | a stored row takes the path computed for the file, name, type and line from the dictionary, kind_raw, signature, typeref, scope pair and file-local flag as `get` returns them, and scope "global" only when the key is missing |
| Indexer.RowsOf | indexer/indexer.py:177-201 | one row per dictionary, in order, numbered consecutively from the next free id |
| Indexer.ParsedRow | indexer/indexer.py:266-286 | a row built from a parsed symbol is stored under the computed path and has no kind_raw, which the parser never supplies |
| Indexer.ParsedRows | indexer/indexer.py:267-286 | one row per parsed symbol, in order, numbered consecutively |
| Indexer.IndexOne | indexer/indexer.py:205-288 | `_index_file` returns 0 for a file it cannot read, else the number of symbols the parser produced |
| Indexer.RefreshAllStep | indexer/indexer.py:99-106 | one iteration of the batch loop refreshes one file and adds its count only when the refresh did not raise |
| Indexer.FtsNotInProjection | indexer/indexer.py:167 | deleting a file's entries from the projection gives the projection of the remaining symbols |
| Indexer.ProjectionConcat | indexer/indexer.py:194-201 | the projection of appended symbols is the old projection followed by theirs |
| Indexer.SymbolsNotInIncreasing | indexer/indexer.py:167 | deleting rows keeps the surviving ids increasing |
| Indexer.DeleteFileSymbolsValid | indexer/indexer.py:167 | the delete (with its cascade and projection trigger) keeps the store's invariants |
| Indexer.InsertRowsValid | indexer/indexer.py:194-201 | inserting rows numbered from the next id keeps the store's invariants |
| Indexer.InsertRowsAppend | indexer/indexer.py:267-286 | inserting rows one at a time equals inserting them as one batch |
| Indexer.ReplaceFileRowValid | indexer/indexer.py:170-174 | replacing a file row keeps the store's invariants |
| Indexer.OfFileConcat | indexer/indexer.py:167-201 | selecting a file's symbols distributes over appended rows |
| Indexer.OfFileNotIn | indexer/indexer.py:167 | after the delete of a path, that path has no symbols and every other path keeps its own |
| Indexer.OfFileAllIn | indexer/indexer.py:177-192 | rows all stored under one path are exactly that path's selection |
| Indexer.Refresh | indexer/indexer.py:136-203 | the surrogate key counter advances by exactly the number of symbols inserted: by the returned count on success and not at all on an error |
| Indexer.RefreshOutcomeIs | indexer/indexer.py:136-203 | a refresh raises for a file outside the root, an unreadable file or a dictionary lacking name/type/line, else returns the number of symbols; only the missing-key error leaves a partial effect, the other two change nothing |
| Indexer.RewriteExactlySupplied | indexer/indexer.py:166-203 | after a refresh of a path the symbols stored under it are exactly the supplied ones, in order, with fresh ids, and the refresh returns their number |
| Indexer.InsertRowsOthersUnchanged | indexer/indexer.py:194-201 | inserting a file's rows leaves every other path's symbols unchanged |
| Indexer.RewriteOthersUnchanged | indexer/indexer.py:166-201 | a refresh of one path leaves the symbols of every other path unchanged |
| Indexer.RewriteValid | indexer/indexer.py:164-201 | a refresh keeps the store's invariants, on success and on a missing key |
| Indexer.RefreshExactlySupplied | indexer/indexer.py:148-203 | for a readable file under the root, the symbols stored under its relative POSIX path are exactly the supplied ones, and their number is returned |
| Indexer.RefreshOthersUnchanged | indexer/indexer.py:148-201 | a refresh leaves the symbols of every path other than the file's stored path unchanged |
| Indexer.RefreshFileRow | indexer/indexer.py:148-174 | the file row for the stored path is replaced wholesale by size, language, sha1 and mtime, its language is "c" exactly for `.c`/`.h`, and every other file row is unchanged |
| Indexer.RefreshValid | indexer/indexer.py:136-203 | any refresh, failed or not, keeps the store's invariants |
| Indexer.RefreshAllTotal | indexer/indexer.py:96-106 | the batch total is the sum of the counts of the files whose refresh did not raise |
| Indexer.RefreshAllValid | indexer/indexer.py:96-111 | the batch loop keeps the store's invariants |
| Indexer.StoredPathIs | indexer/indexer.py:220-230 | `_index_file` stores the relative POSIX path for a file under the source root, else the file's own POSIX path (also with no root set) |
| Indexer.DictOf | indexer/indexer.py:92-104 | a dictionary the parser produced has every required key and no kind_raw |
| Indexer.DictOfRow | indexer/indexer.py:177-192 | the row built from a parser dictionary equals the row `_index_file` builds from the same symbol |
| Indexer.MetadataAfter | indexer/indexer.py:290-311 | the keys after `_update_metadata` are the old keys plus total_symbols, total_files and indexed_at, and source_root when a root is set |
| Indexer.MetadataAfterReadsBack | indexer/indexer.py:290-311 | after `_update_metadata` the totals read back as the integers written, indexed_at is the given time, and source_root is written when set |
| Indexer.MetadataAfterKeepsOthers | indexer/indexer.py:290-311 | every other key, and source_root when no root is set, keeps its value |
| Indexer.ParsedRowsSnoc | indexer/indexer.py:267-286 | the loop of `_index_file` inserts one more row per parsed symbol |
| Indexer.IndexOneValid | indexer/indexer.py:205-288 | `_index_file` keeps the store's invariants |
| Indexer.Index.DeleteSymbolsOfFile | indexer/indexer.py:167 | the store becomes the delete of that path's symbols with their references and projection entries, and the invariants are kept |
| Indexer.Index.ReplaceFile | indexer/indexer.py:170-174 | the store's file row for the path is replaced, and the invariants are kept |
| Indexer.Index.InsertSymbols | indexer/indexer.py:194-201 | rows numbered from the next key and their projection entries are appended, the next key advances past them, and the invariants are kept |
| Indexer.Index.RefreshFile | indexer/indexer.py:136-203 | `_index_file_with_symbols` changes the store as the refresh does, returns its count or error, and keeps the invariants whichever way it ends |
| Indexer.Index.InsertParsed | indexer/indexer.py:266-286 | the insert loop of `_index_file` appends one row per parsed symbol, numbered from the next key, and keeps the invariants |
| Indexer.Index.IndexFile | indexer/indexer.py:205-288 | `_index_file` changes the store as specified, returns its count, and keeps the invariants |
| Indexer.Index.Clear | indexer/indexer.py:125-131 | `_clear_database` leaves files, symbols, references and the search projection empty and the invariants kept |
| Indexer.Index.UpsertMetadata | indexer/indexer.py:293-296 | `INSERT OR REPLACE` sets the key's value, replacing any earlier one |
| Indexer.Index.UpdateMetadata | indexer/indexer.py:290-311 | the metadata becomes the three upserts plus source_root when it is set |
| Indexer.Index.RefreshCounted | indexer/indexer.py:100-106 | one iteration of the batch loop: the refresh and the updated total, with the invariants kept |
| Indexer.Index.WriteTables | indexer/indexer.py:114-116 | the rollback puts back the tables of the snapshot, which satisfy the store's invariants, so the invariants hold after it |
| Indexer.Index.RefreshEach | indexer/indexer.py:98-106 | the batch loop refreshes every file in order and sums the successful counts, keeping the store's invariants |
| Indexer.Index.IndexDirectory | indexer/indexer.py:58-123 | the source root is set; when the batch commits, the tables are those after refreshing every file in order from the (cleared if asked) store, the metadata records the total of the successful refreshes and the number of files; when the batch fails it rolls back to the (cleared) store, the error propagates and the metadata is not written; the invariants hold throughout |
| FileTree.DirPrefix | backend/services/file_tree.py:94-95 | the prefix is empty exactly for the root; otherwise it extends the path and ends with `/`, adding at most that one character |
| FileTree.DirPrefixIdempotent | backend/services/file_tree.py:94-95 | normalising a normalised prefix changes nothing |
| FileTree.FirstSegment | backend/services/file_tree.py:129-146 | the next segment is the part of the remainder before its first `/` (all of it when there is none) |
| FileTree.ChildOfShape | backend/services/file_tree.py:117-156 | a file under the prefix gives a child named by the remainder's first segment; it is a file child, with the file's full path and size, exactly when the remainder has no `/`, else a dir child with path prefix + segment + `/` |
| FileTree.PathsOf | backend/services/file_tree.py:115 | the dictionary keys are the children's paths, index by index |
| FileTree.RowChildrenSpec | backend/services/file_tree.py:117-156 | the loop produces a child for exactly the files whose path starts with the prefix |
| FileTree.DedupSnoc | backend/services/file_tree.py:136-156 | a child is added only when no child with its path is already there |
| FileTree.DedupSpec | backend/services/file_tree.py:115-156 | de-duplication keeps paths distinct, invents no child and loses no path |
| FileTree.CollectSpec | backend/services/file_tree.py:115-156 | the children dictionary has distinct paths, every child comes from a file under the prefix, and every such file's child path is present |
| FileTree.CountUnderCoversFile | backend/services/file_tree.py:162-173 | a directory's recursive symbol count is at least the count of any file below it |
| FileTree.ImmediateNamesSpec | backend/services/file_tree.py:185-204 | a name is an immediate child of a directory if and only if some file below it has that name as first segment of its remainder |
| FileTree.SegmentOf | backend/services/file_tree.py:198-202 | the segment added to the set is the remainder's first segment |
| FileTree.CountImmediateChildren | backend/services/file_tree.py:185-204 | `_count_immediate_children` returns the number of distinct first segments of the files below the directory |
| FileTree.RootChildCount | backend/services/file_tree.py:43-55 | `get_root`'s top-level count is zero exactly when no file is indexed |
| FileTree.RootCountIsImmediateCount | backend/services/file_tree.py:43-55 | `get_root`'s top-level count equals the immediate-children count of the empty prefix |
| FileTree.Populate | backend/services/file_tree.py:159-177 | filling in the counts leaves name, path, kind and size as they were |
| FileTree.PopulateAll | backend/services/file_tree.py:159-177 | the counts are filled in child by child |
| FileTree.ChildLeTotalPreorder | backend/services/file_tree.py:181 | the sort key (directories first, then by name) is total and transitive |
| FileTree.PathLeTotalPreorder | backend/services/file_tree.py:106-110 | ordering by path is total and transitive |
| FileTree.OrderedFiles | backend/services/file_tree.py:103-112 | the rows come back sorted by path, a permutation of the table |
| FileTree.ChildFor | backend/services/file_tree.py:121-156 | one iteration of the loop builds the child of that file |
| FileTree.PathsOfSnoc | backend/services/file_tree.py:136-156 | adding a child adds its path as a key |
| FileTree.CollectStep | backend/services/file_tree.py:117-156 | one iteration adds the file's child when the file is under the prefix and its path is new, and otherwise changes nothing |
| FileTree.CollectChildren | backend/services/file_tree.py:114-156 | the first loop of `get_children` builds the de-duplicated children of the files under the prefix, in path order |
| FileTree.PopulateChildren | backend/services/file_tree.py:158-177 | the second loop fills in the counts of every child |
| FileTree.GetChildren | backend/services/file_tree.py:71-183 | `get_children` returns the populated children of the normalised prefix sorted directories first, then by name |
| FileTree.DistinctPathsPermutation | backend/services/file_tree.py:180-181 | sorting a list of children with distinct paths keeps the paths distinct |
| FileTree.ChildrenSorted | backend/services/file_tree.py:181 | the children are sorted directories first, then by name |
| FileTree.ChildrenDistinct | backend/services/file_tree.py:115-181 | no two children share a path |
| FileTree.ChildrenFromFiles | backend/services/file_tree.py:117-177 | every child is the populated child of some file under the prefix |
| FileTree.ChildrenCoverFiles | backend/services/file_tree.py:117-156 | every file under the prefix is represented by a child with its child path |
| FileTree.ChildCounts | backend/services/file_tree.py:159-177 | a file child's symbol count is its own and it has no children count; a dir child's children count is its immediate-children count, its symbol count covers every file below it, and the first segment of each such file is among its immediate children |
| FileTree.FileNameOccurs | backend/services/file_tree.py:252 | a path's file name occurs in the path |
| FileTree.MatchScore | backend/services/file_tree.py:274-303 | the score lies between minus the length penalty and 1610 minus it; an exact file-name match scores at least 1000 minus the penalty, any other at most 610 minus it |
| FileTree.ScoreTiers | backend/services/file_tree.py:274-303 | the score before the length penalty is one of 0, 10, 110, 610, 1610: 1610 exactly for an exact name match, at least 610 exactly when the name starts with the query, at least 110 exactly when the name contains it, at least 10 exactly when the path contains it |
| FileTree.Matching | backend/services/file_tree.py:236-247 | exactly the files whose path contains the query, case-insensitively |
| FileTree.LengthPathLeTotalPreorder | backend/services/file_tree.py:245 | ordering by length, then path, is total and transitive |
| FileTree.SearchRows | backend/services/file_tree.py:236-247 | exactly 100 matching rows when more than 100 files match, and otherwise all of them |
| FileTree.SearchRowsShortest | backend/services/file_tree.py:245-246 | the rows come in (length, path) order, and every matching row the LIMIT drops comes after each row it keeps |
| FileTree.ShortestKept | backend/services/file_tree.py:236-247 | a matching file whose path is shorter than a kept row's path, or as long and smaller, is kept too |
| FileTree.RankedOf | backend/services/file_tree.py:250-263 | a result carries the row's path and size, its file name, its symbol count and the score of path, name and lowered query |
| FileTree.RankedAll | backend/services/file_tree.py:250-263 | one ranked result per row |
| FileTree.RankedAllAt | backend/services/file_tree.py:250-263 | the ranked result at each index is that of the row at that index |
| FileTree.RankLeTotalPreorder | backend/services/file_tree.py:266 | ordering by descending score, then shorter path, then path, is total and transitive |
| FileTree.HitsOf | backend/services/file_tree.py:268-270 | dropping the score keeps every other field, index by index |
| FileTree.RankedResults | backend/services/file_tree.py:265-266 | the results are sorted by descending score, then length, then path, and are a permutation of the ranked rows |
| FileTree.RankedFor | backend/services/file_tree.py:251-263 | one iteration builds the row's result with its score |
| FileTree.RankRows | backend/services/file_tree.py:249-263 | the loop builds the ranked results of the rows in order |
| FileTree.DropScores | backend/services/file_tree.py:268-270 | the last loop removes the scores |
| FileTree.SearchFile | backend/services/file_tree.py:206-272 | `search_file` returns the hits of the matching rows ranked, or nothing for an empty query |
| FileTree.HitsSound | backend/services/file_tree.py:250-270 | every hit is some row's path and size, with its file name and its symbol count |
| FileTree.HitsComplete | backend/services/file_tree.py:250-270 | every row gives a hit |
| FileTree.SearchHits | backend/services/file_tree.py:206-272 | an empty query gives nothing; at most 100 hits, each a file whose path matches the query case-insensitively, with its name and symbol count; with at most 100 matches every matching file is a hit |
| FileTree.SearchHitsShortest | backend/services/file_tree.py:236-272 | with more than 100 matching files there are exactly 100 hits, and a matching file whose path comes before some hit's path in (length, path) order is a hit too |
| FileTree.SearchOrdered | backend/services/file_tree.py:265-266 | the hits are in descending score, then shorter path, then path order |
| FileTree.DoubleQuotes | backend/services/file_tree.py:409 | doubling quotes never shortens the text |
| FileTree.UndoubleDouble | backend/services/file_tree.py:409 | un-doubling the doubled text gives back the text |
| FileTree.EscapeFts5 | backend/services/file_tree.py:402-411 | the phrase is wrapped in double quotes and its inner text un-doubles to the query |
| FileTree.MatchContext | backend/services/file_tree.py:378-391 | the context is "name" exactly when the name contains the query, "signature" exactly when it does not and a non-empty signature does, "file" only when the path contains it, "fuzzy" only when neither name nor path does |
| FileTree.MatchIn | backend/services/file_tree.py:462-466 | `match_in` is "name" exactly when the name contains the query case-insensitively, "unknown" exactly when neither the name nor a non-empty signature does |
| FileTree.MatchInAgrees | backend/services/file_tree.py:378-391 | the in-file `match_in` and the global match context agree on name and signature matches |
| FileTree.FormatScope | backend/services/file_tree.py:393-400 | "" exactly when there is no scope name; with both kind and name, kind + " " + name; with a name only, the name |
| FileTree.SignatureText | backend/services/file_tree.py:369 | `signature or ""` |
| FileTree.GlobalHitOf | backend/services/file_tree.py:353-372 | a global result copies the row's id, name, path and line, and its match context is that of the lowered query |
| FileTree.SearchSymbolGlobal | backend/services/file_tree.py:305-376 | the loop of `search_symbol_global` builds one result per full-text row, in rank order |
| FileTree.GlobalHits | backend/services/file_tree.py:325-376 | an empty query gives nothing; otherwise one result per row, in order, with context "name" exactly when the name matches |
| FileTree.InfileRowsSpec | backend/services/file_tree.py:444-458 | the query selects exactly the symbols of the file whose name or signature contains the query |
| FileTree.LineLeTotalPreorder | backend/services/file_tree.py:457 | ordering by line is total and transitive |
| FileTree.InfileHitOf | backend/services/file_tree.py:461-476 | an in-file result copies id, name and line and carries the row's `match_in` |
| FileTree.InfileHitsOf | backend/services/file_tree.py:461-478 | one result per row, in order |
| FileTree.SortedInfileRows | backend/services/file_tree.py:444-458 | the selected rows sorted by line, a permutation of the selection |
| FileTree.InfileHitFor | backend/services/file_tree.py:462-476 | one iteration builds the row's result |
| FileTree.InfileLoop | backend/services/file_tree.py:460-478 | the loop builds the results of the rows in order |
| FileTree.SearchSymbolInfile | backend/services/file_tree.py:413-480 | `search_symbol_infile` returns the results of the selected rows in line order, nothing for an empty query or path |
| FileTree.InfileMatchKnown | backend/services/file_tree.py:456-466 | with `LIKE` read as literal containment, a selected row never gets `match_in` "unknown" |
| FileTree.InfileHitsSound | backend/services/file_tree.py:456-478 | every result comes from a selected row of the file; with `LIKE` read as literal containment it has a known `match_in` |
| FileTree.InfileHitsComplete | backend/services/file_tree.py:456-478 | every selected row gives a result |
| FileTree.InfileHits | backend/services/file_tree.py:413-480 | results are in line order, each from a matching symbol of the file with a known `match_in` (`LIKE` read as literal containment), every matching symbol gives one, and an empty query or path gives nothing |

## Left out

- Process launches are not modelled. This covers ctags in `_verify_ctags`, `parse_file` and the compatibility probe with its temporary file, cscope in `_run_query`, and `build_cscope_database`. Their outputs are inputs; a failed ctags run in `parse_file` (which returns no symbols) is the caller passing no lines. `get_ctags_version` is not modelled: it only reports the first line of a process's output.
- `CscopeClient.__init__` (the check that `cscope.out` exists), `get_stats` of the cscope client, and `find_egrep_pattern` are not modelled. They are file-system queries or a wrapper that `query_cscope` cannot reach. The other `find_*` wrappers are represented by their query numbers (`CscopeClient.QueryNumber`).
- `parse_root` is called by `index_directory` but is not defined in `indexer/ctags_parser.py`; it is not part of this model. Its result is the `fileToSymbols` input. `parse_directory` is not modelled either: it is a loop of `parse_file` over a file-system walk.
- The file system is outside the model. This covers `rglob`, `Path.resolve`, `exists`/`is_dir`, file reads, SHA-1 and `os.path.getmtime`. The walk, the resolved root and its kind, and each file's size, digest and mtime are inputs. The mtime is an integer and is only copied.
- The database schema file is not part of this model. The store assumes what the code relies on:
  - foreign keys with ON DELETE CASCADE from references to symbols;
  - FTS insert and delete triggers that keep the search projection in step with `symbols`;
  - an `AUTOINCREMENT` key on `symbols` and on the raw references, so a deleted or cleared id is never handed out again. `Indexer.Cleared`, `Indexer.InsertRows`, `ReferenceIngestor.Numbered` and the `IdsBelow(nextId)` part of `Indexer.ValidTables` depend on it. With a plain `INTEGER PRIMARY KEY`, SQLite hands out the largest live id plus one, so ids would start again after a clear or after the highest-numbered file's symbols are deleted.
  
  `INSERT OR IGNORE` is modelled as a plain append, because no uniqueness constraint is visible.
- SQL `LIKE` is modelled as an exact prefix or suffix test in these places: `get_children`, `_count_immediate_children`, the directory symbol counts and `_resolve_header_path`. SQL `LIKE` also folds ASCII case and treats `_` as a wildcard, so file names containing `_` may match more rows in SQLite than in the model. In the searches (`search_file`, `search_symbol_infile`), `LIKE` is ASCII case-insensitive containment; `%` and `_` in the query are read literally.
- FTS5 `MATCH` and `ORDER BY rank` are not modelled. `FileTree.SearchSymbolGlobal` takes the rows of the full-text query, already ranked and limited, as input.
- `get_root` is modelled only for its top-level child count (`FileTree.RootChildCount`). Its metadata fields, project id and display name are lookups with no logic.
- Python's `lower`, `isspace`, `\w`, `\s` and `int()` are modelled on ASCII only; Unicode case folding and Unicode digits are left out. `Strings.ParseInt` also rejects the underscore digit separators that `int()` accepts (`int("1_0")` is 10); only cscope line numbers reach it.
- `Explorer.PathLe` orders `Path` objects by their parts, as Python 3.11 and earlier do.
- `Explorer.Total`, the sum of the per-extension counts, is a ghost function. The statistics themselves are computed by methods.
- Printing, progress bars, `click` prompts, `datetime.now()` and the resolution-rate percentages are not modelled. `print_stats`, `close_db`, `connect_db` and `main` are not modelled either. The clear prompt of `index_directory` is its `clear` parameter, and the time is its `indexedAt` parameter.
- Exceptions raised outside the per-file handler of `index_directory` (after `BEGIN`) are a single `batchOk` flag. Where such an exception happens in the loop does not matter: the rollback restores the snapshot taken at `BEGIN`.
- `ReferenceResolver.Resolver.ResolveCallees`: the `Counter` of unresolved reasons is not modelled. It only feeds printing.
- FileTree.InfileMatchKnown, FileTree.InfileHitsSound, FileTree.InfileHits: their "never `unknown`" clause holds only because `LIKE` is read as literal containment. In SQLite `_` and `%` in the query are wildcards, so a row can be selected whose name and signature do not contain the query (query `get_x`, name `getAx`), and `search_symbol_infile` then returns `match_in` "unknown" (`backend/services/file_tree.py:465`). The model does not reach that result.
- The per-file symbol lookup of `index_directory` and of the batch loop (`Indexer.RefreshNext`, `Indexer.Index.IndexDirectory`) keys `fileToSymbols` by `AsPosix(file)`. The source keys it by `Path(file_path).resolve().as_posix()`, so the model treats `resolve` as the identity there; a walked path that goes through a symbolic link would get a different key in the source.
- CtagsParser.Tag: `None` stands for a key ctags left out. A JSON `null` value is not modelled: ctags does not print one. In the source a `null` typeref of a typedef or a `null` scope with a scope kind would raise (`indexer/ctags_parser.py:96-97`, `182`), and a `null` line would be kept as `None` (`132`), where the model gives 0.
- Paths.Parse: a POSIX text starting with exactly two slashes (`//x`) keeps `//` as its root in pathlib; the model reads it as the root `/`.
