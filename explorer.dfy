/** File discovery shared by the indexer and cscope (`indexer/explorer.py`): which files under a source
    root have one of the wanted extensions and lie in no ignored directory, in sorted order, and how
    many of them there are per extension. The directory walk of `rglob` is an input: the entries below
    the root, each as a path relative to it. */
module Explorer {
  import opened Wrappers
  import opened Strings
  import opened Sorting
  import opened Paths

  /** Directories skipped when no ignore set is given. */
  const DefaultIgnoreDirs: set<string> :=
    {".git", "__pycache__", "out", "build", "dist", ".pytest_cache", "node_modules", ".venv", "venv"}

  /** Extensions searched when none are given. */
  const DefaultExtensions: seq<string> := [".c", ".h"]

  /** What the file system says about the resolved source root. */
  datatype RootKind = Missing | NotDirectory | Directory

  /** `FileNotFoundError` and `NotADirectoryError` of the constructor, with the root as given. */
  datatype DiscoveryError = DirectoryNotFound(root: string) | NotADirectory(root: string)

  /** A `FileDiscovery`: its fields are set once, by the constructor. */
  datatype FileDiscovery = FileDiscovery(sourceRoot: PurePath, extensions: seq<string>, ignoreDirs: set<string>)

  /** `FileDiscovery(source_root, extensions, ignore_dirs)`, where `resolved` is `Path(source_root).resolve()`
      and `kind` what the file system reports for it. A missing or empty extension list or ignore set
      falls back to the default. */
  function NewDiscovery(sourceRoot: string, resolved: PurePath, kind: RootKind,
                        extensions: Option<seq<string>>, ignoreDirs: Option<set<string>>): (r: Result<FileDiscovery, DiscoveryError>)
    ensures r.Ok? <==> kind == Directory
    ensures kind == Missing ==> r == Err(DirectoryNotFound(sourceRoot))
    ensures kind == NotDirectory ==> r == Err(NotADirectory(sourceRoot))
    ensures r.Ok? ==> r.value.sourceRoot == resolved && r.value.extensions != [] && r.value.ignoreDirs != {}
    ensures r.Ok? && extensions.Some? && extensions.value != [] ==> r.value.extensions == extensions.value
    ensures r.Ok? && (extensions.None? || extensions.value == []) ==> r.value.extensions == DefaultExtensions
    ensures r.Ok? && ignoreDirs.Some? && ignoreDirs.value != {} ==> r.value.ignoreDirs == ignoreDirs.value
    ensures r.Ok? && (ignoreDirs.None? || ignoreDirs.value == {}) ==> r.value.ignoreDirs == DefaultIgnoreDirs
  {
    var exts := if extensions.Some? && extensions.value != [] then extensions.value else DefaultExtensions;
    var ignore := if ignoreDirs.Some? && ignoreDirs.value != {} then ignoreDirs.value else DefaultIgnoreDirs;
    assert ".git" in DefaultIgnoreDirs;
    match kind
    case Missing => Err(DirectoryNotFound(sourceRoot))
    case NotDirectory => Err(NotADirectory(sourceRoot))
    case Directory => Ok(FileDiscovery(resolved, exts, ignore))
  }

  /** Whether some of `parts` is in `ignore`, looking at them in order as the loop of `_should_ignore` does. */
  function AnyIgnored(parts: seq<string>, ignore: set<string>): (r: bool)
    ensures r <==> exists i :: 0 <= i < |parts| && parts[i] in ignore
  {
    if |parts| == 0 then false
    else if parts[0] in ignore then true
    else
      var r := AnyIgnored(parts[1..], ignore);
      assert r ==> exists i :: 0 <= i < |parts| && parts[i] in ignore by {
        if r {
          var i :| 0 <= i < |parts[1..]| && parts[1..][i] in ignore;
          assert parts[i + 1] in ignore;
        }
      }
      r
  }

  /** `_should_ignore(file_path)`: some part of the path, the root `/` and the directories above the
      source root included, is an ignored name. */
  function ShouldIgnore(d: FileDiscovery, filePath: PurePath): (r: bool)
    ensures r <==> exists part :: part in AllParts(filePath) && part in d.ignoreDirs
  {
    var parts := AllParts(filePath);
    var r := AnyIgnored(parts, d.ignoreDirs);
    assert r ==> exists part :: part in parts && part in d.ignoreDirs by {
      if r {
        var i :| 0 <= i < |parts| && parts[i] in d.ignoreDirs;
        assert parts[i] in parts;
      }
    }
    r
  }

  /** The absolute path of an entry below the root. */
  function Under(root: PurePath, entry: PurePath): PurePath {
    PurePath(root.absolute, root.parts + entry.parts)
  }

  /** An entry read as a path relative to the root. */
  function Relative(entry: PurePath): PurePath {
    PurePath(false, entry.parts)
  }

  /** An entry `rglob('*' + ext)` yields: one with a name, and that name ends with `ext`. */
  predicate GlobMatch(entry: PurePath, ext: string) {
    |entry.parts| > 0 && EndsWith(Name(entry), ext)
  }

  /** An entry that the loop over `rglob('*' + ext)` keeps. */
  predicate Kept(d: FileDiscovery, entry: PurePath, ext: string) {
    GlobMatch(entry, ext) && !ShouldIgnore(d, Under(d.sourceRoot, entry))
  }

  /** The entries the inner loop keeps for one extension, in walk order. */
  function KeptFor(d: FileDiscovery, ext: string, entries: seq<PurePath>): seq<PurePath>
  {
    if |entries| == 0 then []
    else
      var n := |entries| - 1;
      KeptFor(d, ext, entries[..n]) + (if Kept(d, entries[n], ext) then [entries[n]] else [])
  }

  /** The entries both loops keep, extension by extension: an entry matching two extensions is kept twice. */
  function KeptAll(d: FileDiscovery, exts: seq<string>, entries: seq<PurePath>): seq<PurePath>
  {
    if |exts| == 0 then []
    else
      var n := |exts| - 1;
      KeptAll(d, exts[..n], entries) + KeptFor(d, exts[n], entries)
  }

  lemma {:induction false} KeptForSpec(d: FileDiscovery, ext: string, entries: seq<PurePath>, e: PurePath)
    ensures e in KeptFor(d, ext, entries) <==> e in entries && Kept(d, e, ext)
  {
    if |entries| > 0 {
      var n := |entries| - 1;
      KeptForSpec(d, ext, entries[..n], e);
      assert entries == entries[..n] + [entries[n]];
    }
  }

  /** An entry is kept exactly when it is a walked entry matching some extension outside every ignored directory. */
  lemma {:induction false} KeptAllSpec(d: FileDiscovery, exts: seq<string>, entries: seq<PurePath>, e: PurePath)
    ensures e in KeptAll(d, exts, entries) <==> e in entries && exists ext :: ext in exts && Kept(d, e, ext)
  {
    if |exts| > 0 {
      var n := |exts| - 1;
      KeptAllSpec(d, exts[..n], entries, e);
      KeptForSpec(d, exts[n], entries, e);
      assert exts == exts[..n] + [exts[n]];
      if e in entries && exists ext :: ext in exts && Kept(d, e, ext) {
        var ext :| ext in exts && Kept(d, e, ext);
        if ext != exts[n] {
          assert ext in exts[..n];
        }
      }
    }
  }

  /** `rel_path.as_posix()` of each kept entry. */
  function PosixAll(entries: seq<PurePath>): (r: seq<string>)
    ensures |r| == |entries|
  {
    if |entries| == 0 then []
    else
      var n := |entries| - 1;
      PosixAll(entries[..n]) + [AsPosix(Relative(entries[n]))]
  }

  lemma {:induction false} PosixAllConcat(a: seq<PurePath>, b: seq<PurePath>)
    ensures PosixAll(a + b) == PosixAll(a) + PosixAll(b)
  {
    if |b| > 0 {
      var n := |b| - 1;
      PosixAllConcat(a, b[..n]);
      assert (a + b)[..|a| + n] == a + b[..n];
    } else {
      assert a + b == a;
    }
  }

  lemma {:induction false} PosixAllSpec(entries: seq<PurePath>, s: string)
    ensures s in PosixAll(entries) <==> exists e :: e in entries && s == AsPosix(Relative(e))
  {
    if |entries| > 0 {
      var n := |entries| - 1;
      PosixAllSpec(entries[..n], s);
      assert entries == entries[..n] + [entries[n]];
    }
  }

  /** The absolute path of each kept entry. */
  function UnderAll(root: PurePath, entries: seq<PurePath>): (r: seq<PurePath>)
    ensures |r| == |entries|
  {
    if |entries| == 0 then []
    else
      var n := |entries| - 1;
      UnderAll(root, entries[..n]) + [Under(root, entries[n])]
  }

  lemma {:induction false} UnderAllConcat(root: PurePath, a: seq<PurePath>, b: seq<PurePath>)
    ensures UnderAll(root, a + b) == UnderAll(root, a) + UnderAll(root, b)
  {
    if |b| > 0 {
      var n := |b| - 1;
      UnderAllConcat(root, a, b[..n]);
      assert (a + b)[..|a| + n] == a + b[..n];
    } else {
      assert a + b == a;
    }
  }

  lemma {:induction false} UnderAllSpec(root: PurePath, entries: seq<PurePath>, p: PurePath)
    ensures p in UnderAll(root, entries) <==> exists e :: e in entries && p == Under(root, e)
  {
    if |entries| > 0 {
      var n := |entries| - 1;
      UnderAllSpec(root, entries[..n], p);
      assert entries == entries[..n] + [entries[n]];
    }
  }

  /** The order of `sorted` on `Path` objects: their parts, the root included, compared lexicographically. */
  function PathLe(a: PurePath, b: PurePath): bool {
    PartsLe(AllParts(a), AllParts(b))
  }

  lemma PathLeTotalPreorder()
    ensures TotalPreorder(PathLe)
  {
    PartsLeTotalPreorder();
  }

  /** What `discover_files()` returns. */
  function DiscoveredFiles(d: FileDiscovery, entries: seq<PurePath>): seq<string>
  {
    StringLeTotalPreorder();
    SortBy(PosixAll(KeptAll(d, d.extensions, entries)), StringLe)
  }

  /** What `discover_files_absolute()` returns. */
  function DiscoveredAbsolute(d: FileDiscovery, entries: seq<PurePath>): seq<PurePath>
  {
    PathLeTotalPreorder();
    SortBy(UnderAll(d.sourceRoot, KeptAll(d, d.extensions, entries)), PathLe)
  }

  /** One step of the inner loops: `rglob` yields the entry and `_should_ignore` rejects it not. */
  method Keep(d: FileDiscovery, entry: PurePath, ext: string) returns (keep: bool)
    ensures keep == Kept(d, entry, ext)
  {
    keep := false;
    if GlobMatch(entry, ext) {
      var filePath := Under(d.sourceRoot, entry);
      if !ShouldIgnore(d, filePath) {
        keep := true;
      }
    }
  }

  /** `relative_to` the root gives back the entry. */
  lemma RelativeOfUnder(root: PurePath, entry: PurePath)
    ensures RelativeTo(Under(root, entry), root) == Some(Relative(entry))
  {
    assert (root.parts + entry.parts)[|root.parts|..] == entry.parts;
  }

  /** One entry more for the inner loop of `discover_files`. */
  lemma RelativeStep(d: FileDiscovery, ext: string, entries: seq<PurePath>, j: nat, files: seq<string>, before: seq<string>)
    requires j < |entries|
    requires before == files + PosixAll(KeptFor(d, ext, entries[..j]))
    ensures (if Kept(d, entries[j], ext) then before + [AsPosix(Relative(entries[j]))] else before)
            == files + PosixAll(KeptFor(d, ext, entries[..j + 1]))
  {
    var prev := KeptFor(d, ext, entries[..j]);
    assert entries[..j + 1][..j] == entries[..j];
    assert KeptFor(d, ext, entries[..j + 1]) == prev + (if Kept(d, entries[j], ext) then [entries[j]] else []);
    if Kept(d, entries[j], ext) {
      assert [entries[j]][..0] == [];
      assert PosixAll([entries[j]]) == [AsPosix(Relative(entries[j]))];
      PosixAllConcat(prev, [entries[j]]);
    } else {
      assert prev + [] == prev;
    }
  }

  /** One entry more for the inner loop of `discover_files_absolute`. */
  lemma AbsoluteStep(d: FileDiscovery, ext: string, entries: seq<PurePath>, j: nat, files: seq<PurePath>, before: seq<PurePath>)
    requires j < |entries|
    requires before == files + UnderAll(d.sourceRoot, KeptFor(d, ext, entries[..j]))
    ensures (if Kept(d, entries[j], ext) then before + [Under(d.sourceRoot, entries[j])] else before)
            == files + UnderAll(d.sourceRoot, KeptFor(d, ext, entries[..j + 1]))
  {
    var prev := KeptFor(d, ext, entries[..j]);
    assert entries[..j + 1][..j] == entries[..j];
    assert KeptFor(d, ext, entries[..j + 1]) == prev + (if Kept(d, entries[j], ext) then [entries[j]] else []);
    if Kept(d, entries[j], ext) {
      assert [entries[j]][..0] == [];
      assert UnderAll(d.sourceRoot, [entries[j]]) == [Under(d.sourceRoot, entries[j])];
      UnderAllConcat(d.sourceRoot, prev, [entries[j]]);
    } else {
      assert prev + [] == prev;
    }
  }

  /** The inner loop of `discover_files` for one extension: appends the relative POSIX path of every
      walked entry that matches and is not ignored. */
  method AppendRelative(d: FileDiscovery, ext: string, entries: seq<PurePath>, files: seq<string>) returns (files': seq<string>)
    ensures files' == files + PosixAll(KeptFor(d, ext, entries))
  {
    files' := files;
    var j := 0;
    while j < |entries|
      invariant 0 <= j <= |entries|
      invariant files' == files + PosixAll(KeptFor(d, ext, entries[..j]))
    {
      assert entries[..j + 1][..j] == entries[..j];
      var filePath := Under(d.sourceRoot, entries[j]);
      var keep := Keep(d, entries[j], ext);
      ghost var before := files';
      if keep {
        var relPath := RelativeTo(filePath, d.sourceRoot);
        RelativeOfUnder(d.sourceRoot, entries[j]);
        files' := files' + [AsPosix(relPath.value)];
      }
      RelativeStep(d, ext, entries, j, files, before);
      j := j + 1;
    }
    assert entries[..j] == entries;
  }

  /** `discover_files()`: the relative POSIX paths of the kept entries, sorted. */
  method DiscoverFiles(d: FileDiscovery, entries: seq<PurePath>) returns (result: seq<string>)
    ensures result == DiscoveredFiles(d, entries)
  {
    var files: seq<string> := [];
    var i := 0;
    while i < |d.extensions|
      invariant 0 <= i <= |d.extensions|
      invariant files == PosixAll(KeptAll(d, d.extensions[..i], entries))
    {
      assert d.extensions[..i + 1][..i] == d.extensions[..i];
      PosixAllConcat(KeptAll(d, d.extensions[..i], entries), KeptFor(d, d.extensions[i], entries));
      files := AppendRelative(d, d.extensions[i], entries, files);
      i := i + 1;
    }
    assert d.extensions[..i] == d.extensions;
    StringLeTotalPreorder();
    result := SortBy(files, StringLe);
  }

  /** The inner loop of `discover_files_absolute` for one extension. */
  method AppendAbsolute(d: FileDiscovery, ext: string, entries: seq<PurePath>, files: seq<PurePath>) returns (files': seq<PurePath>)
    ensures files' == files + UnderAll(d.sourceRoot, KeptFor(d, ext, entries))
  {
    files' := files;
    var j := 0;
    while j < |entries|
      invariant 0 <= j <= |entries|
      invariant files' == files + UnderAll(d.sourceRoot, KeptFor(d, ext, entries[..j]))
    {
      assert entries[..j + 1][..j] == entries[..j];
      var filePath := Under(d.sourceRoot, entries[j]);
      var keep := Keep(d, entries[j], ext);
      ghost var before := files';
      if keep {
        files' := files' + [filePath];
      }
      AbsoluteStep(d, ext, entries, j, files, before);
      j := j + 1;
    }
    assert entries[..j] == entries;
  }

  /** `discover_files_absolute()`: the absolute paths of the kept entries, sorted. */
  method DiscoverFilesAbsolute(d: FileDiscovery, entries: seq<PurePath>) returns (result: seq<PurePath>)
    ensures result == DiscoveredAbsolute(d, entries)
  {
    var files: seq<PurePath> := [];
    var i := 0;
    while i < |d.extensions|
      invariant 0 <= i <= |d.extensions|
      invariant files == UnderAll(d.sourceRoot, KeptAll(d, d.extensions[..i], entries))
    {
      assert d.extensions[..i + 1][..i] == d.extensions[..i];
      UnderAllConcat(d.sourceRoot, KeptAll(d, d.extensions[..i], entries), KeptFor(d, d.extensions[i], entries));
      files := AppendAbsolute(d, d.extensions[i], entries, files);
      i := i + 1;
    }
    assert d.extensions[..i] == d.extensions;
    PathLeTotalPreorder();
    result := SortBy(files, PathLe);
  }

  /** `discover_files` is sorted, and lists exactly the relative paths of the walked entries that match
      an extension and lie in no ignored directory. */
  lemma DiscoveredFilesSpec(d: FileDiscovery, entries: seq<PurePath>, s: string)
    ensures SortedBy(StringLe, DiscoveredFiles(d, entries))
    ensures s in DiscoveredFiles(d, entries) <==>
      exists e :: e in entries && s == AsPosix(Relative(e)) && exists ext :: ext in d.extensions && Kept(d, e, ext)
  {
    var kept := KeptAll(d, d.extensions, entries);
    StringLeTotalPreorder();
    assert s in DiscoveredFiles(d, entries) <==> s in PosixAll(kept) by {
      assert s in DiscoveredFiles(d, entries) <==> s in multiset(PosixAll(kept));
    }
    PosixAllSpec(kept, s);
    forall e ensures e in kept <==> e in entries && exists ext :: ext in d.extensions && Kept(d, e, ext) {
      KeptAllSpec(d, d.extensions, entries, e);
    }
  }

  /** `discover_files_absolute` is sorted, and lists exactly the absolute paths of the walked entries
      that match an extension; none of them has an ignored part. */
  lemma DiscoveredAbsoluteSpec(d: FileDiscovery, entries: seq<PurePath>, p: PurePath)
    ensures SortedBy(PathLe, DiscoveredAbsolute(d, entries))
    ensures p in DiscoveredAbsolute(d, entries) <==>
      exists e :: e in entries && p == Under(d.sourceRoot, e) && exists ext :: ext in d.extensions && Kept(d, e, ext)
    ensures p in DiscoveredAbsolute(d, entries) ==> !ShouldIgnore(d, p)
  {
    var kept := KeptAll(d, d.extensions, entries);
    PathLeTotalPreorder();
    assert p in DiscoveredAbsolute(d, entries) <==> p in UnderAll(d.sourceRoot, kept) by {
      assert p in DiscoveredAbsolute(d, entries) <==> p in multiset(UnderAll(d.sourceRoot, kept));
    }
    UnderAllSpec(d.sourceRoot, kept, p);
    forall e ensures e in kept <==> e in entries && exists ext :: ext in d.extensions && Kept(d, e, ext) {
      KeptAllSpec(d, d.extensions, entries, e);
    }
  }

  /** The ignore check also looks above the source root: when a directory the root lies in has an
      ignored name, discovery finds nothing at all. */
  lemma IgnoredRootFindsNothing(d: FileDiscovery, entries: seq<PurePath>)
    requires exists part :: part in AllParts(d.sourceRoot) && part in d.ignoreDirs
    ensures DiscoveredFiles(d, entries) == []
    ensures DiscoveredAbsolute(d, entries) == []
  {
    NoneKeptAll(d, d.extensions, entries);
  }

  /** Under an ignored root, the inner loop keeps nothing. */
  lemma {:induction false} NoneKeptFor(d: FileDiscovery, ext: string, entries: seq<PurePath>)
    requires exists part :: part in AllParts(d.sourceRoot) && part in d.ignoreDirs
    ensures KeptFor(d, ext, entries) == []
  {
    if |entries| > 0 {
      var n := |entries| - 1;
      NoneKeptFor(d, ext, entries[..n]);
      IgnoredRootDropsEntry(d, entries[n], ext);
      assert KeptFor(d, ext, entries) == KeptFor(d, ext, entries[..n]) + [];
    }
  }

  /** No entry under an ignored root is kept. */
  lemma IgnoredRootDropsEntry(d: FileDiscovery, entry: PurePath, ext: string)
    requires exists part :: part in AllParts(d.sourceRoot) && part in d.ignoreDirs
    ensures !Kept(d, entry, ext)
  {
    var part :| part in AllParts(d.sourceRoot) && part in d.ignoreDirs;
    assert AllParts(Under(d.sourceRoot, entry)) == AllParts(d.sourceRoot) + entry.parts;
    assert part in AllParts(Under(d.sourceRoot, entry));
  }

  lemma {:induction false} NoneKeptAll(d: FileDiscovery, exts: seq<string>, entries: seq<PurePath>)
    requires exists part :: part in AllParts(d.sourceRoot) && part in d.ignoreDirs
    ensures KeptAll(d, exts, entries) == []
  {
    if |exts| > 0 {
      NoneKeptAll(d, exts[..|exts| - 1], entries);
      NoneKeptFor(d, exts[|exts| - 1], entries);
    }
  }

  /* ---------- get_stats ---------- */

  /** `Path(file_path).suffix`. */
  function ExtensionOf(filePath: string): string {
    Suffix(Parse(filePath))
  }

  /** `ext_counts[ext] = ext_counts.get(ext, 0) + 1`. */
  function Bump(counts: map<string, nat>, ext: string): (r: map<string, nat>)
    ensures r.Keys == counts.Keys + {ext}
    ensures r[ext] == (if ext in counts then counts[ext] else 0) + 1
    ensures forall e :: e in counts && e != ext ==> r[e] == counts[e]
  {
    counts[ext := (if ext in counts then counts[ext] else 0) + 1]
  }

  /** The `ext_counts` dictionary the loop of `get_stats` builds; only suffixes that occur are keys. */
  function ExtCounts(files: seq<string>): (r: map<string, nat>)
    ensures forall ext :: ext in r ==> r[ext] > 0 && exists f :: f in files && ExtensionOf(f) == ext
  {
    if |files| == 0 then map[]
    else
      var n := |files| - 1;
      Bump(ExtCounts(files[..n]), ExtensionOf(files[n]))
  }

  /** The number of files with extension `ext`. */
  function CountExt(files: seq<string>, ext: string): nat
  {
    if |files| == 0 then 0
    else
      var n := |files| - 1;
      CountExt(files[..n], ext) + (if ExtensionOf(files[n]) == ext then 1 else 0)
  }

  /** Some key of a non-empty dictionary. */
  ghost function Pick(m: map<string, nat>): (k: string)
    requires |m.Keys| > 0
    ensures k in m
  {
    var k :| k in m.Keys; k
  }

  /** The sum of the counts of a dictionary. */
  ghost function Total(m: map<string, nat>): nat
    decreases |m.Keys|
  {
    if |m.Keys| == 0 then 0
    else
      var k := Pick(m);
      assert (m - {k}).Keys == m.Keys - {k};
      m[k] + Total(m - {k})
  }

  /** The sum does not depend on which key is taken out first. */
  lemma {:induction false} TotalRemove(m: map<string, nat>, k: string)
    requires k in m
    ensures Total(m) == m[k] + Total(m - {k})
    decreases |m.Keys|
  {
    var j := Pick(m);
    if j != k {
      var mj := m - {j};
      var mk := m - {k};
      assert mj.Keys == m.Keys - {j};
      assert mk.Keys == m.Keys - {k};
      assert k in mj && mj[k] == m[k];
      assert j in mk && mk[j] == m[j];
      TotalRemove(mj, k);
      TotalRemove(mk, j);
      assert mj - {k} == mk - {j};
    }
  }

  /** Counting one more file adds one to the sum. */
  lemma TotalBump(m: map<string, nat>, ext: string)
    ensures Total(Bump(m, ext)) == Total(m) + 1
  {
    var m' := Bump(m, ext);
    TotalRemove(m', ext);
    SameWithout(m', m, ext);
    if ext in m {
      TotalRemove(m, ext);
    } else {
      assert (m - {ext}).Keys == m.Keys;
      assert m - {ext} == m;
    }
  }

  /** Removing `ext` from `m` and from its bumped copy gives the same dictionary. */
  lemma SameWithout(m': map<string, nat>, m: map<string, nat>, ext: string)
    requires m' == Bump(m, ext)
    ensures m' - {ext} == m - {ext}
  {
    assert (m' - {ext}).Keys == (m - {ext}).Keys;
  }

  /** Each extension present is counted as often as files carry it, and the extensions counted are
      exactly those present. */
  lemma {:induction false} ExtCountsAgree(files: seq<string>)
    ensures forall ext :: ext in ExtCounts(files) <==> CountExt(files, ext) > 0
    ensures forall ext :: ext in ExtCounts(files) ==> ExtCounts(files)[ext] == CountExt(files, ext)
  {
    if |files| > 0 {
      ExtCountsAgree(files[..|files| - 1]);
    }
  }

  /** The counts add up to the number of files. */
  lemma {:induction false} ExtCountsTotal(files: seq<string>)
    ensures Total(ExtCounts(files)) == |files|
  {
    if |files| > 0 {
      var n := |files| - 1;
      ExtCountsTotal(files[..n]);
      TotalBump(ExtCounts(files[..n]), ExtensionOf(files[n]));
    }
  }

  /** The dictionary `get_stats` returns. */
  datatype Stats = Stats(totalFiles: nat, extensions: map<string, nat>, sourceRoot: string)

  /** One file more for the counting loop of `get_stats`. */
  lemma ExtCountsStep(files: seq<string>, i: nat)
    requires i < |files|
    ensures ExtCounts(files[..i + 1]) == Bump(ExtCounts(files[..i]), ExtensionOf(files[i]))
  {
    assert files[..i + 1][..i] == files[..i];
  }

  /** `Path(file_path).suffix` for one file of the counting loop. */
  method ExtensionFor(filePath: string) returns (ext: string)
    ensures ext == ExtensionOf(filePath)
  {
    var p := Parse(filePath);
    ext := Suffix(p);
  }

  /** The counting loop of `get_stats`. */
  method CountExtensions(files: seq<string>) returns (extCounts: map<string, nat>)
    ensures extCounts == ExtCounts(files)
  {
    extCounts := map[];
    var i := 0;
    while i < |files|
      invariant 0 <= i <= |files|
      invariant extCounts == ExtCounts(files[..i])
    {
      var ext := ExtensionFor(files[i]);
      ExtCountsStep(files, i);
      extCounts := Bump(extCounts, ext);
      i := i + 1;
    }
    assert files[..i] == files;
  }

  /** `get_stats()`. */
  method GetStats(d: FileDiscovery, entries: seq<PurePath>) returns (stats: Stats)
    ensures stats.totalFiles == |DiscoveredFiles(d, entries)|
    ensures stats.extensions == ExtCounts(DiscoveredFiles(d, entries))
    ensures stats.sourceRoot == AsPosix(d.sourceRoot)
  {
    var files := DiscoverFiles(d, entries);
    var extCounts := CountExtensions(files);
    stats := Stats(|files|, extCounts, AsPosix(d.sourceRoot));
  }

  /** The statistics agree with discovery: the per-extension counts add up to the total, and each is the
      number of discovered files with that extension. */
  lemma StatsAddUp(d: FileDiscovery, entries: seq<PurePath>, stats: Stats)
    requires stats.totalFiles == |DiscoveredFiles(d, entries)|
    requires stats.extensions == ExtCounts(DiscoveredFiles(d, entries))
    ensures Total(stats.extensions) == stats.totalFiles
    ensures forall ext :: ext in stats.extensions ==> stats.extensions[ext] == CountExt(DiscoveredFiles(d, entries), ext)
  {
    ExtCountsTotal(DiscoveredFiles(d, entries));
    ExtCountsAgree(DiscoveredFiles(d, entries));
  }

  /* ---------- the module-level discover_files ---------- */

  /** `discover_files(source_root, extensions)`: a discovery over the root with the default ignore set,
      then its `discover_files()`; the constructor's errors pass through. */
  method DiscoverUnder(sourceRoot: string, resolved: PurePath, kind: RootKind, extensions: Option<seq<string>>,
                       entries: seq<PurePath>) returns (r: Result<seq<string>, DiscoveryError>)
    ensures kind == Missing ==> r == Err(DirectoryNotFound(sourceRoot))
    ensures kind == NotDirectory ==> r == Err(NotADirectory(sourceRoot))
    ensures kind == Directory ==>
      var exts := if extensions.Some? && extensions.value != [] then extensions.value else DefaultExtensions;
      r == Ok(DiscoveredFiles(FileDiscovery(resolved, exts, DefaultIgnoreDirs), entries))
  {
    var d := NewDiscovery(sourceRoot, resolved, kind, extensions, None);
    match d
    case Err(e) => r := Err(e);
    case Ok(discovery) =>
      var files := DiscoverFiles(discovery, entries);
      r := Ok(files);
  }
}
