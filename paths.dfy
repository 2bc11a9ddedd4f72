/** POSIX paths as pathlib sees them: an optional root and a list of
    parts. Covers the pathlib operations the indexer relies on: building a
    path from text, `as_posix`, `parts`, `relative_to`, `name` and `suffix`. */
module Paths {
  import opened Wrappers
  import opened Strings

  /** A PurePosixPath: `absolute` is true when the path has the root `/`; `parts` excludes the root. */
  datatype PurePath = PurePath(absolute: bool, parts: seq<string>)

  /** A part pathlib keeps when it parses text: neither empty nor `.`, and free of `/`. */
  predicate IsPart(s: string) {
    s != "" && s != "." && '/' !in s
  }

  predicate WellFormed(p: PurePath) {
    forall i :: 0 <= i < |p.parts| ==> IsPart(p.parts[i])
  }

  /** The pieces between slashes that pathlib keeps: empty pieces and `.` are dropped. */
  function Clean(pieces: seq<string>): (r: seq<string>)
    ensures |r| <= |pieces|
    ensures forall i :: 0 <= i < |pieces| && IsPart(pieces[i]) ==> pieces[i] in r
    ensures forall i :: 0 <= i < |r| ==> r[i] in pieces && r[i] != "" && r[i] != "."
  {
    if |pieces| == 0 then []
    else
      var rest := Clean(pieces[1..]);
      assert forall i :: 1 <= i < |pieces| ==> pieces[i] == pieces[1..][i - 1];
      if pieces[0] != "" && pieces[0] != "." then [pieces[0]] + rest else rest
  }

  /** Path(s) for POSIX text s: absolute when s starts with `/`, split on `/`, empty and `.` parts dropped. */
  function Parse(s: string): (p: PurePath)
    ensures WellFormed(p)
    ensures p.absolute <==> |s| > 0 && s[0] == '/'
  {
    PurePath(|s| > 0 && s[0] == '/', Clean(Split(s, '/')))
  }

  /** Path.as_posix(): the root, then the parts joined by `/`; an empty relative path is `.`. */
  function AsPosix(p: PurePath): string
  {
    if p.absolute then "/" + Join(p.parts, '/')
    else if |p.parts| == 0 then "."
    else Join(p.parts, '/')
  }

  /** Path.parts: the root `/` of an absolute path counts as its first part. */
  function AllParts(p: PurePath): seq<string>
  {
    (if p.absolute then ["/"] else []) + p.parts
  }

  /** Path.relative_to(root): the parts of `p` after those of `root`, or None where Python raises ValueError. */
  function RelativeTo(p: PurePath, root: PurePath): (r: Option<PurePath>)
    ensures r.Some? <==> p.absolute == root.absolute && root.parts <= p.parts
    ensures r.Some? ==> !r.value.absolute && root.parts + r.value.parts == p.parts
  {
    if p.absolute == root.absolute && root.parts <= p.parts then
      assert root.parts + p.parts[|root.parts|..] == p.parts;
      Some(PurePath(false, p.parts[|root.parts|..]))
    else None
  }

  /** Path.name: the last part, or "" when there is none. */
  function Name(p: PurePath): string
  {
    if |p.parts| == 0 then "" else p.parts[|p.parts| - 1]
  }

  /** Path.suffix: from the last `.` of the name, provided it is neither the first nor the last character. */
  function Suffix(p: PurePath): (r: string)
    ensures r != "" ==> r[0] == '.' && |r| >= 2 && '.' !in r[1..]
  {
    var name := Name(p);
    var i := LastIndexOf(name, '.');
    if 0 < i < |name| - 1 then name[i..] else ""
  }

  /** Text that `as_posix` reproduces: `.`, `/`, or slash-separated parts, optionally after one leading `/`. */
  predicate IsCanonical(s: string) {
    || s == "."
    || s == "/"
    || (|s| > 0 && s[0] != '/' && forall piece :: piece in Split(s, '/') ==> IsPart(piece))
    || (|s| > 1 && s[0] == '/' && forall piece :: piece in Split(s[1..], '/') ==> IsPart(piece))
  }

  lemma {:induction false} CleanKeepsParts(pieces: seq<string>)
    requires forall piece :: piece in pieces ==> IsPart(piece)
    ensures Clean(pieces) == pieces
  {
    if |pieces| > 0 {
      CleanKeepsParts(pieces[1..]);
    }
  }

  lemma AsPosixParseRelative(s: string)
    requires |s| > 0 && s[0] != '/'
    requires forall piece :: piece in Split(s, '/') ==> IsPart(piece)
    ensures AsPosix(Parse(s)) == s
  {
    var pieces := Split(s, '/');
    CleanKeepsParts(pieces);
    assert Parse(s) == PurePath(false, pieces);
    JoinSplit(s, '/');
  }

  lemma AsPosixParseAbsolute(s: string)
    requires |s| > 1 && s[0] == '/'
    requires forall piece :: piece in Split(s[1..], '/') ==> IsPart(piece)
    ensures AsPosix(Parse(s)) == s
  {
    var t := s[1..];
    assert IndexOf(s, '/') == 0;
    assert Split(s, '/') == [""] + Split(t, '/');
    CleanKeepsParts(Split(t, '/'));
    assert Clean(Split(s, '/')) == Split(t, '/');
    JoinSplit(t, '/');
  }

  /** Text that as_posix produces is read back by Path() unchanged: as_posix(Path(s)) == s. */
  lemma AsPosixParse(s: string)
    requires IsCanonical(s)
    ensures AsPosix(Parse(s)) == s
  {
    if s == "." {
      assert Split(s, '/') == ["."];
    } else if s == "/" {
      assert Split(s, '/') == [""] + Split("", '/');
      assert Split("", '/') == [""];
    } else if s[0] != '/' {
      AsPosixParseRelative(s);
    } else {
      AsPosixParseAbsolute(s);
    }
  }

  /** A well-formed path written with as_posix and parsed again is the same path. */
  lemma ParseAsPosix(p: PurePath)
    requires WellFormed(p)
    ensures Parse(AsPosix(p)) == p
  {
    if |p.parts| == 0 {
      if p.absolute {
        assert AsPosix(p) == "/";
        assert Split("/", '/') == [""] + Split("", '/');
      } else {
        assert Split(".", '/') == ["."];
      }
    } else {
      var j := Join(p.parts, '/');
      SplitJoin(p.parts, '/');
      CleanKeepsParts(p.parts);
      assert j[0] != '/' by {
        JoinStartsWithFirst(p.parts, '/');
        assert j[..|p.parts[0]|] == p.parts[0];
        assert j[0] == p.parts[0][0];
      }
      if p.absolute {
        var s := "/" + j;
        assert IndexOf(s, '/') == 0;
        assert s[1..] == j;
        assert Split(s, '/') == [""] + Split(j, '/');
      }
    }
  }

  lemma {:induction false} JoinStartsWithFirst(parts: seq<string>, sep: char)
    requires |parts| >= 1
    ensures parts[0] <= Join(parts, sep)
  {
  }
}
