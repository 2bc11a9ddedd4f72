/** The ctags compatibility check of indexer/ctags_compat.py: which kinds a
    ctags run printed, and whether the core kinds the indexer depends on are
    among them. Running ctags on the probe file is outside the model; its
    output arrives as the decoded lines of CtagsParser. */
module CtagsCompat {
  import opened Wrappers
  import opened Strings
  import opened CtagsParser

  /** The kinds the kind table of `_parse_tag` knows about. */
  const ExpectedKinds: set<string> := {
    "function", "prototype", "variable", "struct", "union", "enum",
    "enumerator", "typedef", "macro", "member", "header"}

  /** The kinds every working ctags must report for the probe file. */
  const CoreKinds: set<string> := {
    "function", "prototype", "macro", "typedef", "member", "variable", "enumerator"}

  /** The verdict of the check: an error naming the missing core kinds, or success with the kinds to warn about. */
  datatype Verdict = Incompatible(missing: set<string>) | Compatible(unexpected: set<string>)

  /** Every core kind is an expected kind. */
  lemma CoreKindsExpected()
    ensures CoreKinds <= ExpectedKinds
  {
  }

  /** The expected kinds are exactly the kinds the normaliser's table maps. */
  lemma ExpectedKindsAreTypeMapKeys()
    ensures ExpectedKinds == TypeMap.Keys
  {
    assert forall k :: k in TypeMap.Keys ==> k in ExpectedKinds;
    assert forall k :: k in ExpectedKinds ==> k in TypeMap;
  }

  /** The kind a line contributes: a kept line whose tag has a non-empty kind. */
  function LineKind(l: OutputLine): (k: Option<string>)
    ensures k.Some? <==> Kept(l) && Truthy(l.decoded.value.kind)
    ensures k.Some? ==> k == l.decoded.value.kind
  {
    if Kept(l) && Truthy(l.decoded.value.kind) then l.decoded.value.kind else None
  }

  /** The set of kinds collected from the first `|lines|` lines. */
  function ObservedKindsOf(lines: seq<OutputLine>): (kinds: set<string>)
    ensures forall k :: k in kinds ==> k != ""
  {
    if |lines| == 0 then {}
    else
      var k := LineKind(lines[|lines| - 1]);
      ObservedKindsOf(lines[..|lines| - 1]) + (if k.Some? then {k.value} else {})
  }

  /** A kind is observed exactly when some kept line's tag carries it. */
  lemma {:induction false} ObservedKindsExactly(lines: seq<OutputLine>, kind: string)
    ensures kind in ObservedKindsOf(lines) <==> exists i :: 0 <= i < |lines| && LineKind(lines[i]) == Some(kind)
  {
    if |lines| > 0 {
      var n := |lines| - 1;
      var prefix := lines[..n];
      ObservedKindsExactly(prefix, kind);
      if exists i :: 0 <= i < |lines| && LineKind(lines[i]) == Some(kind) {
        var i :| 0 <= i < |lines| && LineKind(lines[i]) == Some(kind);
        if i < n {
          assert LineKind(prefix[i]) == Some(kind);
        }
      }
      if kind in ObservedKindsOf(prefix) {
        var i :| 0 <= i < |prefix| && LineKind(prefix[i]) == Some(kind);
        assert LineKind(lines[i]) == Some(kind);
      }
    }
  }

  /** The loop of `verify_ctags_compatibility` that gathers the observed kinds. */
  method ObservedKinds(lines: seq<OutputLine>) returns (observed: set<string>)
    ensures observed == ObservedKindsOf(lines)
    ensures forall k :: k in observed <==> exists i :: 0 <= i < |lines| && LineKind(lines[i]) == Some(k)
  {
    observed := {};
    var i := 0;
    while i < |lines|
      invariant 0 <= i <= |lines|
      invariant observed == ObservedKindsOf(lines[..i])
    {
      assert lines[..i + 1][..i] == lines[..i];
      var line := lines[i];
      if line.text != "" && line.text[0] != '!' && line.decoded.Some? {
        var kind := line.decoded.value.kind;
        if kind.Some? && kind.value != "" {
          observed := observed + {kind.value};
        }
      }
      i := i + 1;
    }
    assert lines[..i] == lines;
    forall k ensures k in observed <==> exists j :: 0 <= j < |lines| && LineKind(lines[j]) == Some(k) {
      ObservedKindsExactly(lines, k);
    }
  }

  /** The two set checks: missing core kinds are an error; kinds outside the expected set only warn. */
  function Check(observed: set<string>): (v: Verdict)
    ensures v.Incompatible? <==> exists k :: k in CoreKinds && k !in observed
    ensures v.Incompatible? ==> v.missing != {} && forall k :: k in v.missing <==> k in CoreKinds && k !in observed
    ensures v.Compatible? ==> forall k :: k in v.unexpected <==> k in observed && k !in ExpectedKinds
  {
    var missing := CoreKinds - observed;
    assert forall k :: k in CoreKinds && k !in observed ==> k in missing;
    if missing != {} then Incompatible(missing) else Compatible(observed - ExpectedKinds)
  }

  /** Unexpected kinds never make the check fail: only the core kinds decide. */
  lemma UnexpectedKindsOnlyWarn(observed: set<string>, extra: set<string>)
    requires CoreKinds <= observed
    ensures Check(observed + extra).Compatible?
    ensures Check(observed + extra).unexpected == (observed + extra) - ExpectedKinds
  {
  }
}
