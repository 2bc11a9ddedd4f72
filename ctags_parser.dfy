/** The ctags tag normaliser of indexer/ctags_parser.py: the two passes of
    `CTagsParser.parse_file` over the JSON lines ctags printed, and
    `_parse_tag`, which turns one tag into a symbol record. Running ctags and
    decoding JSON are outside the model: each output line comes with what
    `json.loads` made of it. */
module CtagsParser {
  import opened Wrappers
  import opened Strings

  /** One JSON object ctags prints for a tag; a field ctags left out is None. */
  datatype Tag = Tag(
    name: Option<string>,
    kind: Option<string>,
    line: Option<int>,
    typeref: Option<string>,
    signature: Option<string>,
    scopeKind: Option<string>,
    scope: Option<string>,
    file: Option<bool>,
    extras: Option<string>)

  /** One line of ctags' output: its text and the tag json.loads decoded from it (None: JSONDecodeError). */
  datatype OutputLine = OutputLine(text: string, decoded: Option<Tag>)

  /** The symbol dictionary `_parse_tag` returns. `isFileScope` is 1, 0 or None (unknown). */
  datatype Symbol = Symbol(
    name: string,
    typ: string,
    line: int,
    signature: Option<string>,
    typeref: Option<string>,
    scope: string,
    scopeKind: Option<string>,
    scopeName: Option<string>,
    isFileScope: Option<int>,
    filePath: string)

  /** The prefix ctags gives the invented names of anonymous structs, unions and enums. */
  const AnonPrefix: string := "__anon"

  /** The kind table of `_parse_tag`: ctags kind to normalised type. */
  const TypeMap: map<string, string> := map[
    "function" := "function",
    "prototype" := "function",
    "variable" := "variable",
    "struct" := "struct",
    "union" := "union",
    "enum" := "enum",
    "enumerator" := "enumerator",
    "typedef" := "typedef",
    "macro" := "macro",
    "member" := "member",
    "header" := "header"]

  predicate IsAnon(s: string) {
    AnonPrefix <= s
  }

  /** A typedef's typeref names a struct, union or enum. */
  predicate IsAggregateRef(typeref: string) {
    "struct:" <= typeref || "union:" <= typeref || "enum:" <= typeref
  }

  /** The normalised type of a tag of kind `kind` with type reference `typeref`. */
  function NormalizeType(kind: string, typeref: Option<string>): (t: string)
    // a typedef becomes an aggregate exactly when its typeref names one, and then the aggregate it names
    ensures kind == "typedef" ==> (t != "typedef" <==> Truthy(typeref) && IsAggregateRef(typeref.value))
    ensures kind == "typedef" && t != "typedef" ==> t in {"struct", "union", "enum"} && t + ":" <= typeref.value
    // any other kind goes through the kind table, and an unknown kind is kept as it is
    ensures kind != "typedef" && kind in TypeMap ==> t == TypeMap[kind]
    ensures kind != "typedef" && kind !in TypeMap ==> t == kind
    // the result is always a normalised type or the unknown kind itself
    ensures t in TypeMap.Values || (kind !in TypeMap && t == kind)
  {
    if kind == "typedef" && Truthy(typeref) then
      var r := typeref.value;
      assert TypeMap["struct"] == "struct" && TypeMap["union"] == "union" && TypeMap["enum"] == "enum";
      if "struct:" <= r then "struct"
      else if "union:" <= r then "union"
      else if "enum:" <= r then "enum"
      else "typedef"
    else if kind in TypeMap then TypeMap[kind]
    else kind
  }

  /** The tri-state file-local flag: the `file` field decides when present, else whether `extras` mentions fileScope, else unknown. */
  function FileScopeFlag(tag: Tag): (f: Option<int>)
    ensures f.Some? <==> tag.file.Some? || tag.extras.Some?
    ensures f.Some? ==> f.value == 0 || f.value == 1
    ensures tag.file.Some? ==> (f == Some(1) <==> tag.file.value)
    ensures tag.file.None? && tag.extras.Some? ==> (f == Some(1) <==> Contains(tag.extras.value, "fileScope"))
  {
    if tag.file.Some? then Some(if tag.file.value then 1 else 0)
    else if tag.extras.Some? then Some(if Contains(tag.extras.value, "fileScope") then 1 else 0)
    else None
  }

  /** The parent scope name after an anonymous name is replaced by its typedef's name, when the table has one. */
  function ResolveParent(p: string, anon: map<string, string>): (r: string)
    ensures !IsAnon(p) ==> r == p
    ensures IsAnon(p) ==> r == (if p in anon then anon[p] else p)
  {
    if IsAnon(p) && p in anon then anon[p] else p
  }

  /** `_parse_tag`: the symbol for one tag, with anonymous parent scopes renamed through `anon`. */
  function ParseTag(tag: Tag, filePath: string, anon: map<string, string>): (r: Option<Symbol>)
    // no symbol for a tag without name or kind, or for an anonymous aggregate itself
    ensures r.None? <==> !Truthy(tag.name) || !Truthy(tag.kind) || IsAnon(tag.name.value)
    ensures r.Some? ==> var s := r.value;
      // copied fields: never invented
      && s.name == tag.name.value
      && s.typ == NormalizeType(tag.kind.value, tag.typeref)
      && s.line == (if tag.line.Some? then tag.line.value else 0)
      && s.signature == tag.signature
      && s.typeref == tag.typeref
      && s.filePath == filePath
      // the scope pair is all or nothing, and set only for a named parent
      && (s.scopeKind.Some? <==> s.scopeName.Some?)
      && (s.scopeName.Some? <==>
            tag.scopeKind.Some? && tag.scope.Some? && !IsAnon(ResolveParent(tag.scope.value, anon)))
      && (s.scopeName.Some? ==>
            s.scopeKind == tag.scopeKind && s.scopeName.value == ResolveParent(tag.scope.value, anon))
      // the legacy scope marker follows the file-local flag
      && s.isFileScope == FileScopeFlag(tag)
      && (s.scope == "static" <==> s.isFileScope == Some(1))
      && (s.scope == "static" || s.scope == "global")
  {
    if !Truthy(tag.name) || !Truthy(tag.kind) then None
    else if IsAnon(tag.name.value) then None
    else
      var parent :=
        if tag.scopeKind.Some? && tag.scope.Some? then
          var p := tag.scope.value;
          Some(ResolveParent(p, anon))
        else None;
      var named := parent.Some? && !IsAnon(parent.value);
      var isFileScope := FileScopeFlag(tag);
      Some(Symbol(
        name := tag.name.value,
        typ := NormalizeType(tag.kind.value, tag.typeref),
        line := if tag.line.Some? then tag.line.value else 0,
        signature := tag.signature,
        typeref := tag.typeref,
        scope := if isFileScope == Some(1) then "static" else "global",
        scopeKind := if named then tag.scopeKind else None,
        scopeName := if named then parent else None,
        isFileScope := isFileScope,
        filePath := filePath))
  }

  /** Normalised types are fixed points: normalising a normalised type as a kind changes nothing. */
  lemma NormalizeTypeIdempotent(kind: string, typeref: Option<string>)
    ensures var t := NormalizeType(kind, typeref); NormalizeType(t, None) == t
  {
  }

  /** The first pass keeps a line when it is neither blank nor a `!` pseudo-tag and decodes. */
  predicate Kept(l: OutputLine) {
    l.text != "" && l.text[0] != '!' && l.decoded.Some?
  }

  /** The anonymous name a typedef's struct/union/enum typeref points at, when it names one and the typedef has a name. */
  function TypedefTarget(tag: Tag): (a: Option<string>)
    ensures a.Some? ==> IsAnon(a.value) && Truthy(tag.name)
  {
    if tag.kind == Some("typedef") && tag.typeref.Some? && IsAggregateRef(tag.typeref.value) then
      var r := tag.typeref.value;
      var anonName := r[IndexOf(r, ':') + 1..];
      if IsAnon(anonName) && Truthy(tag.name) then Some(anonName) else None
    else None
  }

  /** The first pass's update of the anonymous-name table for one tag. */
  function RecordTypedef(anon: map<string, string>, tag: Tag): map<string, string>
  {
    var a := TypedefTarget(tag);
    if a.Some? then anon[a.value := tag.name.value] else anon
  }

  /** The tags the first pass collects, in input order. */
  function RawTags(lines: seq<OutputLine>): (tags: seq<Tag>)
    ensures |tags| <= |lines|
  {
    if |lines| == 0 then []
    else
      var last := lines[|lines| - 1];
      RawTags(lines[..|lines| - 1]) + (if Kept(last) then [last.decoded.value] else [])
  }

  /** The anonymous-name table after the first pass: later typedefs overwrite earlier ones. */
  function AnonMap(lines: seq<OutputLine>): (anon: map<string, string>)
    ensures forall a :: a in anon ==> IsAnon(a) && anon[a] != ""
  {
    if |lines| == 0 then map[]
    else
      var last := lines[|lines| - 1];
      var prev := AnonMap(lines[..|lines| - 1]);
      if Kept(last) then RecordTypedef(prev, last.decoded.value) else prev
  }

  /** The line at `i` is a kept typedef that maps anonymous name `a` to `n`. */
  predicate RecordsAt(lines: seq<OutputLine>, i: int, a: string, n: string)
    requires 0 <= i < |lines|
  {
    Kept(lines[i]) && TypedefTarget(lines[i].decoded.value) == Some(a) && lines[i].decoded.value.name == Some(n)
  }

  /** Last one wins: the table maps `a` to the name of the last kept typedef that targets it. */
  lemma {:induction false} AnonMapLastWins(lines: seq<OutputLine>, i: int, a: string, n: string)
    requires 0 <= i < |lines| && RecordsAt(lines, i, a, n)
    requires forall j :: i < j < |lines| && Kept(lines[j]) ==> TypedefTarget(lines[j].decoded.value) != Some(a)
    ensures a in AnonMap(lines) && AnonMap(lines)[a] == n
  {
    var k := |lines| - 1;
    var prefix := lines[..k];
    if i < k {
      assert RecordsAt(prefix, i, a, n);
      AnonMapLastWins(prefix, i, a, n);
    }
  }

  /** An anonymous name no kept typedef targets is absent from the table. */
  lemma {:induction false} AnonMapOnlyRecorded(lines: seq<OutputLine>, a: string)
    requires forall j :: 0 <= j < |lines| && Kept(lines[j]) ==> TypedefTarget(lines[j].decoded.value) != Some(a)
    ensures a !in AnonMap(lines)
  {
    if |lines| > 0 {
      var prefix := lines[..|lines| - 1];
      AnonMapOnlyRecorded(prefix, a);
    }
  }

  /** The second pass: `_parse_tag` on each collected tag, dropping the tags it rejects. */
  function SymbolsOf(tags: seq<Tag>, filePath: string, anon: map<string, string>): (syms: seq<Symbol>)
    ensures |syms| <= |tags|
    ensures forall k :: 0 <= k < |syms| ==> !IsAnon(syms[k].name) && syms[k].filePath == filePath
  {
    if |tags| == 0 then []
    else
      var r := ParseTag(tags[|tags| - 1], filePath, anon);
      SymbolsOf(tags[..|tags| - 1], filePath, anon) + (if r.Some? then [r.value] else [])
  }

  /** The second pass keeps input order: it maps the two halves of its input separately. */
  lemma {:induction false} SymbolsOfConcat(t1: seq<Tag>, t2: seq<Tag>, filePath: string, anon: map<string, string>)
    ensures SymbolsOf(t1 + t2, filePath, anon) == SymbolsOf(t1, filePath, anon) + SymbolsOf(t2, filePath, anon)
    decreases |t2|
  {
    if |t2| > 0 {
      var k := |t2| - 1;
      assert (t1 + t2)[..|t1 + t2| - 1] == t1 + t2[..k];
      SymbolsOfConcat(t1, t2[..k], filePath, anon);
    } else {
      assert t1 + t2 == t1;
    }
  }

  /** `parse_file` once ctags has run: pass 1 collects the decodable tags and the anonymous-name table,
      pass 2 normalises each tag. */
  method ParseFile(lines: seq<OutputLine>, filePath: string) returns (symbols: seq<Symbol>)
    ensures symbols == SymbolsOf(RawTags(lines), filePath, AnonMap(lines))
    ensures forall k :: 0 <= k < |symbols| ==> !IsAnon(symbols[k].name) && symbols[k].filePath == filePath
  {
    var rawTags: seq<Tag> := [];
    var anon: map<string, string> := map[];
    var i := 0;
    while i < |lines|
      invariant 0 <= i <= |lines|
      invariant rawTags == RawTags(lines[..i])
      invariant anon == AnonMap(lines[..i])
    {
      assert lines[..i + 1][..i] == lines[..i];
      var line := lines[i];
      if line.text != "" && line.text[0] != '!' && line.decoded.Some? {
        var tag := line.decoded.value;
        rawTags := rawTags + [tag];
        anon := RecordTypedef(anon, tag);
      }
      i := i + 1;
    }
    assert lines[..i] == lines;

    symbols := [];
    var j := 0;
    while j < |rawTags|
      invariant 0 <= j <= |rawTags|
      invariant symbols == SymbolsOf(rawTags[..j], filePath, anon)
    {
      assert rawTags[..j + 1][..j] == rawTags[..j];
      var symbol := ParseTag(rawTags[j], filePath, anon);
      if symbol.Some? {
        symbols := symbols + [symbol.value];
      }
      j := j + 1;
    }
    assert rawTags[..j] == rawTags;
  }
}
