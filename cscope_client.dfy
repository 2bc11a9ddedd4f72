/** The cscope client of indexer/cscope_client.py: the parser of cscope's
    line-oriented output, the classification of a query's exit status, and
    the table from query names to cscope query numbers. Launching cscope is
    outside the model: a query receives the process outcome for its
    command line from a caller-supplied function. */
module CscopeClient {
  import opened Wrappers
  import opened Strings

  /** One cross-reference cscope printed. */
  datatype Reference = Reference(filePath: string, func: string, lineNumber: int, lineText: string)

  /** The longest prefix of `t` free of white space. */
  function WordPrefix(t: string): (w: string)
    ensures w <= t
    ensures forall i :: 0 <= i < |w| ==> !IsSpace(w[i])
    ensures |w| < |t| ==> IsSpace(t[|w|])
  {
    if |t| == 0 || IsSpace(t[0]) then "" else [t[0]] + WordPrefix(t[1..])
  }

  /** A non-empty run of characters that are not white space. */
  predicate IsWord(s: string) {
    s != "" && forall i :: 0 <= i < |s| ==> !IsSpace(s[i])
  }

  /** A non-empty text that does not start with white space. */
  predicate StartsWord(s: string) {
    s != "" && !IsSpace(s[0])
  }

  /** str.split(None, maxsplit): at most `maxsplit` white-space separated words, then the rest of the
      text after the white space that follows them, trailing white space included. */
  function SplitWs(s: string, maxsplit: nat): (r: seq<string>)
    ensures |r| <= maxsplit + 1
    ensures forall i :: 0 <= i < |r| ==> StartsWord(r[i])
    ensures forall i :: 0 <= i < |r| && i < maxsplit ==> IsWord(r[i])
    decreases |s|
  {
    if |s| == 0 then []
    else if IsSpace(s[0]) then SplitWs(s[1..], maxsplit)
    else if maxsplit == 0 then [s]
    else
      var w := WordPrefix(s);
      [w] + SplitWs(s[|w|..], maxsplit - 1)
  }

  /** What `_parse_output` does with one line: skip it, fail on its line number, or build a reference. */
  datatype LineResult = Skipped | BadNumber(field: string) | Parsed(ref: Reference)

  /** One line of cscope output: `file function line text`, split on the first three runs of white space. */
  function ParseLine(line: string): (r: LineResult)
    ensures r.Skipped? <==> line == "" || |SplitWs(line, 3)| < 3
    ensures r.BadNumber? ==> var parts := SplitWs(line, 3); |parts| >= 3 && ParseInt(parts[2]).None? && r.field == parts[2]
    ensures r.Parsed? ==>
      var parts := SplitWs(line, 3);
      && |parts| >= 3
      && r.ref.filePath == parts[0]
      && r.ref.func == parts[1]
      && ParseInt(parts[2]) == Some(r.ref.lineNumber)
      && r.ref.lineText == (if |parts| > 3 then parts[3] else "")
  {
    if line == "" then Skipped
    else
      var parts := SplitWs(line, 3);
      if |parts| < 3 then Skipped
      else
        match ParseInt(parts[2])
        case None => BadNumber(parts[2])
        case Some(n) => Parsed(Reference(parts[0], parts[1], n, if |parts| > 3 then parts[3] else ""))
  }

  /** The references of a sequence of classified lines, in order; the first bad line number fails the
      whole parse (Python's ValueError from int()). */
  function Collect(results: seq<LineResult>): (r: Result<seq<Reference>, string>)
    ensures r.Ok? ==> |r.value| <= |results|
  {
    if |results| == 0 then Ok([])
    else
      var prev := Collect(results[..|results| - 1]);
      if prev.Err? then prev
      else
        match results[|results| - 1]
        case Skipped => prev
        case BadNumber(f) => Err(f)
        case Parsed(ref) => Ok(prev.value + [ref])
  }

  /** Each line classified on its own. */
  function ClassifyLines(lines: seq<string>): (results: seq<LineResult>)
    ensures |results| == |lines|
    ensures forall i :: 0 <= i < |lines| ==> results[i] == ParseLine(lines[i])
  {
    seq(|lines|, i requires 0 <= i < |lines| => ParseLine(lines[i]))
  }

  /** The lines `_parse_output` walks: the output stripped, then split at newlines. */
  function OutputLines(output: string): seq<string>
  {
    Split(Strip(output), '\n')
  }

  /** What `_parse_output` returns for `output`, or the field whose int() raises. */
  function ParseOutputOf(output: string): Result<seq<Reference>, string>
  {
    Collect(ClassifyLines(OutputLines(output)))
  }

  /** `_parse_output`. */
  method ParseOutput(output: string) returns (r: Result<seq<Reference>, string>)
    ensures r == ParseOutputOf(output)
  {
    r := ParseLines(OutputLines(output));
  }

  /** `_parse_output` after the split into lines: each line classified, then collected. */
  method ParseLines(lines: seq<string>) returns (r: Result<seq<Reference>, string>)
    ensures r == Collect(ClassifyLines(lines))
  {
    r := CollectResults(ClassifyLines(lines));
  }

  /** The loop of `_parse_output`: references are appended in line order, and the first bad line
      number ends the loop with its error. */
  method CollectResults(results: seq<LineResult>) returns (r: Result<seq<Reference>, string>)
    ensures r == Collect(results)
  {
    var references: seq<Reference> := [];
    var i := 0;
    while i < |results|
      invariant 0 <= i <= |results|
      invariant Collect(results[..i]) == Ok(references)
    {
      CollectStep(results, i);
      match results[i] {
        case Skipped =>
        case BadNumber(field) =>
          CollectErrSticky(results, i + 1);
          assert results[..|results|] == results;
          return Err(field);
        case Parsed(ref) =>
          references := references + [ref];
      }
      i := i + 1;
    }
    assert results[..i] == results;
    r := Ok(references);
  }

  /** Collecting one more classified line. */
  lemma CollectSnoc(rs: seq<LineResult>, x: LineResult)
    ensures Collect(rs + [x]) ==
      (if Collect(rs).Err? then Collect(rs)
       else match x
         case Skipped => Collect(rs)
         case BadNumber(f) => Err(f)
         case Parsed(ref) => Ok(Collect(rs).value + [ref]))
  {
    assert (rs + [x])[..|rs|] == rs;
    assert (rs + [x])[|rs|] == x;
  }

  /** Collecting one more line of a classified output. */
  lemma CollectStep(results: seq<LineResult>, i: nat)
    requires i < |results|
    ensures Collect(results[..i + 1]) ==
      (if Collect(results[..i]).Err? then Collect(results[..i])
       else match results[i]
         case Skipped => Collect(results[..i])
         case BadNumber(f) => Err(f)
         case Parsed(ref) => Ok(Collect(results[..i]).value + [ref]))
  {
    assert results[..i + 1] == results[..i] + [results[i]];
    CollectSnoc(results[..i], results[i]);
  }

  /** Once a prefix has failed, every longer prefix fails with the same error. */
  lemma {:induction false} CollectErrSticky(results: seq<LineResult>, k: nat)
    requires k <= |results| && Collect(results[..k]).Err?
    ensures Collect(results) == Collect(results[..k])
    decreases |results| - k
  {
    if k < |results| {
      var n := |results| - 1;
      assert results[..n][..k] == results[..k];
      CollectErrSticky(results[..n], k);
    } else {
      assert results[..k] == results;
    }
  }

  /** Parsing keeps input order: the references of two blocks of lines are those of the first block,
      then those of the second. */
  lemma {:induction false} CollectConcat(a: seq<LineResult>, b: seq<LineResult>)
    requires Collect(a).Ok? && Collect(b).Ok?
    ensures Collect(a + b) == Ok(Collect(a).value + Collect(b).value)
    decreases |b|
  {
    if |b| == 0 {
      assert a + b == a;
      assert Collect(a).value + [] == Collect(a).value;
    } else {
      var n := |b| - 1;
      assert (a + b)[..|a + b| - 1] == a + b[..n];
      assert (a + b)[|a + b| - 1] == b[n];
      CollectConcat(a, b[..n]);
      var pa, pb := Collect(a).value, Collect(b[..n]).value;
      assert Collect(a + b[..n]) == Ok(pa + pb);
      match b[n]
      case Skipped =>
      case BadNumber(_) =>
      case Parsed(ref) =>
        assert pa + pb + [ref] == pa + (pb + [ref]);
    }
  }

  /** Each line contributes at most one reference: a single line yields exactly the one it parses to, if any. */
  lemma CollectOne(x: LineResult)
    ensures Collect([x]) ==
      (match x
       case Skipped => Ok([])
       case BadNumber(f) => Err(f)
       case Parsed(ref) => Ok([ref]))
  {
    assert [x][..0] == [];
    assert [x][0] == x;
    assert Collect([x][..0]) == Ok([]);
    match x
    case Skipped =>
    case BadNumber(_) =>
    case Parsed(ref) =>
      assert [] + [ref] == [ref];
  }

  /** A line with a file name and a function name free of white space, a line number and a text that does
      not start with white space. */
  function FormatLine(r: Reference): string
  {
    r.filePath + " " + r.func + " " + IntToString(r.lineNumber) + (if r.lineText == "" then "" else " " + r.lineText)
  }

  /** The first word of a text and the rest after it. */
  lemma {:induction false} WordPrefixOf(w: string, rest: string)
    requires forall i :: 0 <= i < |w| ==> !IsSpace(w[i])
    requires rest == "" || IsSpace(rest[0])
    ensures WordPrefix(w + rest) == w
  {
    if |w| > 0 {
      assert (w + rest)[0] == w[0];
      assert (w + rest)[1..] == w[1..] + rest;
      WordPrefixOf(w[1..], rest);
    } else {
      assert w + rest == rest;
    }
  }

  lemma IntToStringIsWord(n: int)
    ensures IsWord(IntToString(n))
  {
    var s := IntToString(n);
    if n < 0 {
      assert s == "-" + NatToString(-n);
    }
  }

  /** One step of the split: a word, then the text after it. */
  lemma SplitWsStep(w: string, rest: string, maxsplit: nat)
    requires IsWord(w) && maxsplit > 0
    ensures SplitWs(w + " " + rest, maxsplit) == [w] + SplitWs(rest, maxsplit - 1)
  {
    var t := w + " " + rest;
    assert t == w + (" " + rest);
    WordPrefixOf(w, " " + rest);
    assert t[0] == w[0];
    assert t[|w|..] == " " + rest;
    assert (" " + rest)[1..] == rest;
  }

  /** Three words and no text. */
  lemma SplitThreeWords(a: string, b: string, c: string)
    requires IsWord(a) && IsWord(b) && IsWord(c)
    ensures SplitWs(a + " " + b + " " + c, 3) == [a, b, c]
  {
    assert a + " " + b + " " + c == a + " " + (b + " " + c);
    SplitWsStep(a, b + " " + c, 3);
    SplitWsStep(b, c, 2);
    SplitWsLastWord(c);
  }

  /** Three words and a text. */
  lemma SplitThreeWordsText(a: string, b: string, c: string, text: string)
    requires IsWord(a) && IsWord(b) && IsWord(c) && StartsWord(text)
    ensures SplitWs(a + " " + b + " " + c + " " + text, 3) == [a, b, c, text]
  {
    assert a + " " + b + " " + c + " " + text == a + " " + (b + " " + (c + " " + text));
    SplitTwoWordsText(b, c, text);
    SplitWsStep(a, b + " " + (c + " " + text), 3);
  }

  /** Two words and a text, split at most twice. */
  lemma SplitTwoWordsText(b: string, c: string, text: string)
    requires IsWord(b) && IsWord(c) && StartsWord(text)
    ensures SplitWs(b + " " + (c + " " + text), 2) == [b, c, text]
  {
    SplitWsStep(c, text, 1);
    assert SplitWs(text, 0) == [text];
    SplitWsStep(b, c + " " + text, 2);
  }

  /** The fields of a formatted line: file, function, number, and the text when there is one. */
  lemma SplitFormatLine(r: Reference)
    requires IsWord(r.filePath) && IsWord(r.func)
    requires r.lineText != "" ==> StartsWord(r.lineText)
    ensures SplitWs(FormatLine(r), 3) ==
      [r.filePath, r.func, IntToString(r.lineNumber)] + (if r.lineText == "" then [] else [r.lineText])
  {
    var num := IntToString(r.lineNumber);
    IntToStringIsWord(r.lineNumber);
    if r.lineText == "" {
      assert FormatLine(r) == r.filePath + " " + r.func + " " + num;
      SplitThreeWords(r.filePath, r.func, num);
    } else {
      assert FormatLine(r) == r.filePath + " " + r.func + " " + num + " " + r.lineText;
      SplitThreeWordsText(r.filePath, r.func, num, r.lineText);
    }
  }

  /** A single word splits to itself. */
  lemma SplitWsLastWord(w: string)
    requires IsWord(w)
    ensures SplitWs(w, 1) == [w]
  {
    assert w + "" == w;
    WordPrefixOf(w, "");
    assert w[|w|..] == "";
  }

  /** A reference written as a cscope line parses back to the same reference. */
  lemma ParseFormatLine(r: Reference)
    requires IsWord(r.filePath) && IsWord(r.func)
    requires r.lineText != "" ==> StartsWord(r.lineText)
    ensures ParseLine(FormatLine(r)) == Parsed(r)
  {
    var line := FormatLine(r);
    var parts := SplitWs(line, 3);
    SplitFormatLine(r);
    assert |parts| >= 3 && parts[0] == r.filePath && parts[1] == r.func;
    assert parts[2] == IntToString(r.lineNumber);
    ParseIntToString(r.lineNumber);
    assert (if |parts| > 3 then parts[3] else "") == r.lineText;
    assert line != "" by {
      assert |line| >= |r.filePath| + 1;
    }
  }

  /** How a cscope process ended: not installed, or exited with a status and its two output streams. */
  datatype Outcome = NotInstalled | Exited(returnCode: int, stdout: string, stderr: string)

  /** Why a query failed. */
  datatype QueryError =
    | QueryFailed(stderr: string)
    | CscopeMissing
    | BadLineNumber(field: string)
    | InvalidQueryType(name: string)

  /** The command line `_run_query` runs. */
  function QueryArgv(queryType: nat, symbol: string): (argv: seq<string>)
    ensures |argv| == 4 && argv[0] == "cscope" && argv[3] == symbol
  {
    ["cscope", "-dL", "-" + IntToString(queryType), symbol]
  }

  /** `_run_query` once cscope has run: exit status 1 with nothing on stderr means no results;
      any other non-zero status is a failure; status 0 hands stdout to the parser. */
  function ClassifyOutcome(o: Outcome): (r: Result<seq<Reference>, QueryError>)
    ensures o.NotInstalled? ==> r == Err(CscopeMissing)
    ensures o.Exited? && o.returnCode == 1 && o.stderr == "" ==> r == Ok([])
    ensures o.Exited? && o.returnCode != 0 && !(o.returnCode == 1 && o.stderr == "") ==> r == Err(QueryFailed(o.stderr))
    ensures o.Exited? && o.returnCode == 0 ==>
      r == (match ParseOutputOf(o.stdout)
            case Ok(refs) => Ok(refs)
            case Err(f) => Err(BadLineNumber(f)))
  {
    match o
    case NotInstalled => Err(CscopeMissing)
    case Exited(rc, out, err) =>
      if rc == 0 then
        match ParseOutputOf(out)
        case Ok(refs) => Ok(refs)
        case Err(f) => Err(BadLineNumber(f))
      else if rc == 1 && err == "" then Ok([])
      else Err(QueryFailed(err))
  }

  /** A query fails with cscope's error text exactly when it exits non-zero other than the quiet "no results" status. */
  lemma QueryFailedExactly(o: Outcome)
    ensures ClassifyOutcome(o).Err? && ClassifyOutcome(o).error.QueryFailed? <==>
      o.Exited? && o.returnCode != 0 && !(o.returnCode == 1 && o.stderr == "")
  {
  }

  /** The query names `query_cscope` accepts. */
  datatype QueryKind = FindSymbol | FindDefinition | FindCallers | FindCallees | FindText | FindIncludes

  /** The name table of `query_cscope`; None where it raises ValueError. */
  function QueryKindOf(name: string): (k: Option<QueryKind>)
    ensures k.Some? <==> name in {"symbol", "definition", "callers", "callees", "text", "includes"}
  {
    match name
    case "symbol" => Some(FindSymbol)
    case "definition" => Some(FindDefinition)
    case "callers" => Some(FindCallers)
    case "callees" => Some(FindCallees)
    case "text" => Some(FindText)
    case "includes" => Some(FindIncludes)
    case _ => None
  }

  /** The cscope query number each `find_*` method passes to `_run_query`. */
  function QueryNumber(k: QueryKind): (n: nat)
    ensures n <= 8
  {
    match k
    case FindSymbol => 0
    case FindDefinition => 1
    case FindCallees => 2
    case FindCallers => 3
    case FindText => 4
    case FindIncludes => 8
  }

  /** Different query names run different cscope queries. */
  lemma QueryNumberInjective(a: QueryKind, b: QueryKind)
    ensures QueryNumber(a) == QueryNumber(b) ==> a == b
  {
  }

  /** `query_cscope`: the named query against a cscope whose outcome for each command line is `run`. */
  function QueryCscope(name: string, symbol: string, run: seq<string> -> Outcome): (r: Result<seq<Reference>, QueryError>)
    ensures QueryKindOf(name).None? ==> r == Err(InvalidQueryType(name))
    ensures QueryKindOf(name).Some? ==> r == ClassifyOutcome(run(QueryArgv(QueryNumber(QueryKindOf(name).value), symbol)))
  {
    match QueryKindOf(name)
    case None => Err(InvalidQueryType(name))
    case Some(k) => ClassifyOutcome(run(QueryArgv(QueryNumber(k), symbol)))
  }

  /** The query numbers of the six names, as cscope's line-oriented interface defines them. */
  lemma QueryNumbers()
    ensures QueryNumber(QueryKindOf("symbol").value) == 0
    ensures QueryNumber(QueryKindOf("definition").value) == 1
    ensures QueryNumber(QueryKindOf("callees").value) == 2
    ensures QueryNumber(QueryKindOf("callers").value) == 3
    ensures QueryNumber(QueryKindOf("text").value) == 4
    ensures QueryNumber(QueryKindOf("includes").value) == 8
  {
  }
}
