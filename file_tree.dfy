/** The file-tree service of backend/services/file_tree.py: the immediate
    children of a directory of the indexed tree, the top-level child count
    of the root, ranked file search, and the small formatting helpers of
    symbol search. The database tables arrive as sequences: `files` as its
    rows of path and size, `symbols` as the `file_path` of each of its rows. */
module FileTree {
  import opened Wrappers
  import opened Strings
  import opened Sorting
  import Paths

  /** A row of `files` as the service reads it. */
  datatype FileRow = FileRow(path: string, size: int)

  /* ---------- directory listing ---------- */

  /** The prefix `get_children` lists under: a non-empty path gains a trailing `/`. */
  function DirPrefix(path: string): (p: string)
    ensures path == "" <==> p == ""
    ensures path != "" ==> p[|p| - 1] == '/' && path <= p && |p| <= |path| + 1
  {
    if path != "" && path[|path| - 1] != '/' then path + "/" else path
  }

  /** Normalising twice changes nothing. */
  lemma DirPrefixIdempotent(path: string)
    ensures DirPrefix(DirPrefix(path)) == DirPrefix(path)
  {
  }

  /** The text before the first `/`, or all of it: the `CASE instr(path, '/') ...` of `get_root` and the
      `relative[:slash_pos]` of the child listing. */
  function FirstSegment(rel: string): (seg: string)
    ensures seg <= rel && '/' !in seg
    ensures |seg| < |rel| ==> rel[|seg|] == '/'
  {
    var k := IndexOf(rel, '/');
    if k == -1 then rel else rel[..k]
  }

  datatype Kind = Dir | File

  /** One child: `size` only for files, `childrenCount` only for directories. */
  datatype Child = Child(name: string, path: string, kind: Kind, size: Option<int>,
                         childrenCount: Option<nat>, symbolCount: nat)

  /** The child a file under `prefix` contributes, before its counts are filled in. */
  function ChildOf(prefix: string, f: FileRow): Child
    requires prefix <= f.path
  {
    var rel := f.path[|prefix|..];
    if '/' !in rel then Child(rel, f.path, File, Some(f.size), None, 0)
    else
      var seg := FirstSegment(rel);
      Child(seg, prefix + seg + "/", Dir, None, Some(0), 0)
  }

  /** A file directly under the prefix is its own child; a deeper one gives the directory of its first
      segment, whose path is the prefix, the segment and `/`. Either way the child's name is the first
      segment of the remainder, and its path lies under the prefix. */
  lemma ChildOfShape(prefix: string, f: FileRow)
    requires prefix <= f.path
    ensures var c := ChildOf(prefix, f); var rel := f.path[|prefix|..];
      && c.name == FirstSegment(rel)
      && '/' !in c.name
      && prefix <= c.path
      && (c.kind == File <==> '/' !in rel)
      && (c.kind == File ==> c.path == f.path && c.size == Some(f.size))
      && (c.kind == Dir ==> c.path == prefix + c.name + "/" && c.name + "/" <= rel)
  {
    var rel := f.path[|prefix|..];
    if '/' in rel {
      var seg := FirstSegment(rel);
      assert rel[..|seg| + 1] == seg + "/";
    }
  }

  function PathsOf(cs: seq<Child>): (ps: seq<string>)
    ensures |ps| == |cs|
    ensures forall i :: 0 <= i < |cs| ==> ps[i] == cs[i].path
  {
    seq(|cs|, i requires 0 <= i < |cs| => cs[i].path)
  }

  /** The children the rows under `prefix` produce, one per row, in row order. */
  function RowChildren(prefix: string, rows: seq<FileRow>): seq<Child>
  {
    if |rows| == 0 then []
    else
      var n := |rows| - 1;
      RowChildren(prefix, rows[..n]) + (if prefix <= rows[n].path then [ChildOf(prefix, rows[n])] else [])
  }

  /** The children are exactly those of the rows under the prefix. */
  lemma {:induction false} RowChildrenSpec(prefix: string, rows: seq<FileRow>)
    ensures forall c :: c in RowChildren(prefix, rows) <==> exists f :: f in rows && prefix <= f.path && c == ChildOf(prefix, f)
  {
    if |rows| > 0 {
      var n := |rows| - 1;
      RowChildrenSpec(prefix, rows[..n]);
      assert rows == rows[..n] + [rows[n]];
    }
  }

  /** A dictionary keyed by child path filled from `cs`: the first child with a path decides its entry,
      and entries keep the order they were made in. */
  function Dedup(cs: seq<Child>): (ds: seq<Child>)
  {
    if |cs| == 0 then []
    else
      var n := |cs| - 1;
      var ds := Dedup(cs[..n]);
      if cs[n].path in PathsOf(ds) then ds else ds + [cs[n]]
  }

  /** Filling the dictionary from one more child. */
  lemma DedupSnoc(cs: seq<Child>, c: Child)
    ensures Dedup(cs + [c]) == if c.path in PathsOf(Dedup(cs)) then Dedup(cs) else Dedup(cs) + [c]
  {
    assert (cs + [c])[..|cs|] == cs;
  }

  /** One entry per path, each one of the children, and every child's path has its entry. */
  lemma {:induction false} DedupSpec(cs: seq<Child>)
    ensures var ds := Dedup(cs);
      && (forall i, j :: 0 <= i < j < |ds| ==> ds[i].path != ds[j].path)
      && (forall c :: c in ds ==> c in cs)
      && (forall c :: c in cs ==> c.path in PathsOf(ds))
  {
    if |cs| > 0 {
      var n := |cs| - 1;
      DedupSpec(cs[..n]);
      assert cs == cs[..n] + [cs[n]];
      var ds := Dedup(cs[..n]);
      assert PathsOf(ds + [cs[n]]) == PathsOf(ds) + [cs[n].path];
    }
  }

  /** The `children` dictionary after the listing loop. */
  function Collect(prefix: string, rows: seq<FileRow>): seq<Child> {
    Dedup(RowChildren(prefix, rows))
  }

  /** The dictionary holds one entry per child path, each made from one of the rows under the prefix,
      and every such row's child path is among them. */
  lemma CollectSpec(prefix: string, rows: seq<FileRow>)
    ensures var cs := Collect(prefix, rows);
      && (forall i, j :: 0 <= i < j < |cs| ==> cs[i].path != cs[j].path)
      && (forall c :: c in cs ==> exists f :: f in rows && prefix <= f.path && c == ChildOf(prefix, f))
      && (forall f :: f in rows && prefix <= f.path ==> ChildOf(prefix, f).path in PathsOf(cs))
  {
    DedupSpec(RowChildren(prefix, rows));
    RowChildrenSpec(prefix, rows);
  }

  /** `SELECT COUNT(*) FROM symbols WHERE file_path = ?`. */
  function CountEq(symbolFiles: seq<string>, path: string): nat
  {
    if |symbolFiles| == 0 then 0
    else
      var n := |symbolFiles| - 1;
      CountEq(symbolFiles[..n], path) + (if symbolFiles[n] == path then 1 else 0)
  }

  /** `SELECT COUNT(*) FROM symbols WHERE file_path LIKE prefix || '%'`, with LIKE read as a prefix test. */
  function CountUnder(symbolFiles: seq<string>, prefix: string): nat
  {
    if |symbolFiles| == 0 then 0
    else
      var n := |symbolFiles| - 1;
      CountUnder(symbolFiles[..n], prefix) + (if prefix <= symbolFiles[n] then 1 else 0)
  }

  /** A directory counts at least the symbols of every file under it. */
  lemma {:induction false} CountUnderCoversFile(symbolFiles: seq<string>, dir: string, path: string)
    requires dir <= path
    ensures CountEq(symbolFiles, path) <= CountUnder(symbolFiles, dir)
  {
    if |symbolFiles| > 0 {
      CountUnderCoversFile(symbolFiles[..|symbolFiles| - 1], dir, path);
    }
  }

  /** The name a path contributes under `parent`: the first segment of what follows the parent, when the
      path starts with it. */
  function NameUnder(parent: string, path: string): Option<string>
  {
    if parent <= path then Some(FirstSegment(path[|parent|..])) else None
  }

  /** The names `_count_immediate_children` collects under `parent`. */
  function ImmediateNames(files: seq<FileRow>, parent: string): set<string>
  {
    if |files| == 0 then {}
    else
      var n := |files| - 1;
      var u := NameUnder(parent, files[n].path);
      ImmediateNames(files[..n], parent) + (if u.Some? then {u.value} else {})
  }

  /** A name is collected exactly when some file under the parent starts with it, as its first segment. */
  lemma {:induction false} ImmediateNamesSpec(files: seq<FileRow>, parent: string, name: string)
    ensures name in ImmediateNames(files, parent) <==> exists f :: f in files && NameUnder(parent, f.path) == Some(name)
  {
    if |files| > 0 {
      var n := |files| - 1;
      ImmediateNamesSpec(files[..n], parent, name);
      assert files == files[..n] + [files[n]];
    }
  }

  /** The name one row of `_count_immediate_children` contributes: up to the first slash, if any. */
  method SegmentOf(relative: string) returns (name: string)
    ensures name == FirstSegment(relative)
  {
    var slashPos := IndexOf(relative, '/');
    if slashPos == -1 {
      name := relative;
    } else {
      name := relative[..slashPos];
    }
  }

  /** `_count_immediate_children`: the number of distinct first segments under `parent`. The set it
      builds does not depend on the order of the rows, so the unordered query is read in table order. */
  method CountImmediateChildren(files: seq<FileRow>, parent: string) returns (count: nat)
    ensures count == |ImmediateNames(files, parent)|
  {
    var names: set<string> := {};
    var i := 0;
    while i < |files|
      invariant 0 <= i <= |files|
      invariant names == ImmediateNames(files[..i], parent)
    {
      assert files[..i + 1][..i] == files[..i];
      var filePath := files[i].path;
      if parent <= filePath {
        var name := SegmentOf(filePath[|parent|..]);
        names := names + {name};
      }
      i := i + 1;
    }
    assert files[..i] == files;
    count := |names|;
  }

  /** The distinct top-level names of `get_root`'s count query. */
  function RootNames(files: seq<FileRow>): set<string> {
    set f | f in files :: FirstSegment(f.path)
  }

  /** `get_root`'s `children_count`: zero exactly for an empty table. */
  function RootChildCount(files: seq<FileRow>): (r: nat)
    ensures r == 0 <==> |files| == 0
  {
    if |files| > 0 then assert FirstSegment(files[0].path) in RootNames(files); |RootNames(files)|
    else |RootNames(files)|
  }

  /** The root count of `get_root` is what `_count_immediate_children` gives for the empty prefix. */
  lemma RootCountIsImmediateCount(files: seq<FileRow>)
    ensures RootChildCount(files) == |ImmediateNames(files, "")|
  {
    forall name ensures name in RootNames(files) <==> name in ImmediateNames(files, "") {
      ImmediateNamesSpec(files, "", name);
      if name in RootNames(files) {
        var f :| f in files && FirstSegment(f.path) == name;
        assert f.path[|""|..] == f.path;
        assert NameUnder("", f.path) == Some(name);
      }
      if name in ImmediateNames(files, "") {
        var f :| f in files && NameUnder("", f.path) == Some(name);
        assert f.path[|""|..] == f.path;
      }
    }
    assert RootNames(files) == ImmediateNames(files, "");
  }

  /** A child with its counts: the symbols of a file, or the symbols under a directory and its
      immediate children. */
  function Populate(files: seq<FileRow>, symbolFiles: seq<string>, c: Child): (d: Child)
    ensures d.name == c.name && d.path == c.path && d.kind == c.kind && d.size == c.size
  {
    if c.kind == File then c.(symbolCount := CountEq(symbolFiles, c.path))
    else c.(symbolCount := CountUnder(symbolFiles, c.path),
            childrenCount := Some(|ImmediateNames(files, c.path)|))
  }

  function PopulateAll(files: seq<FileRow>, symbolFiles: seq<string>, cs: seq<Child>): (ds: seq<Child>)
    ensures |ds| == |cs|
    ensures forall i :: 0 <= i < |cs| ==> ds[i] == Populate(files, symbolFiles, cs[i])
  {
    seq(|cs|, i requires 0 <= i < |cs| => Populate(files, symbolFiles, cs[i]))
  }

  /** The key `(kind == "file", name)`: directories first, then by name. */
  function ChildLe(a: Child, b: Child): bool {
    (a.kind == Dir && b.kind == File) || (a.kind == b.kind && StringLe(a.name, b.name))
  }

  lemma ChildLeTotalPreorder()
    ensures TotalPreorder(ChildLe)
  {
    StringLeTotalPreorder();
  }

  function PathLe(a: FileRow, b: FileRow): bool {
    StringLe(a.path, b.path)
  }

  lemma PathLeTotalPreorder()
    ensures TotalPreorder(PathLe)
  {
    StringLeTotalPreorder();
  }

  /** `SELECT path, size FROM files ORDER BY path`. The `WHERE path LIKE prefix || '%'` of a non-root
      listing only narrows what the loop checks again with `startswith`, so it is not modelled. */
  function OrderedFiles(files: seq<FileRow>): (r: seq<FileRow>)
    ensures SortedBy(PathLe, r)
    ensures multiset(r) == multiset(files)
  {
    PathLeTotalPreorder();
    SortBy(files, PathLe)
  }

  /** What `get_children(path)` returns. */
  function Children(files: seq<FileRow>, symbolFiles: seq<string>, path: string): seq<Child>
  {
    var prefix := DirPrefix(path);
    ChildLeTotalPreorder();
    SortBy(PopulateAll(files, symbolFiles, Collect(prefix, OrderedFiles(files))), ChildLe)
  }

  /** The body of the listing loop for a file under the prefix: strip the prefix, then split at the
      first `/`. */
  method ChildFor(prefix: string, fileRow: FileRow) returns (child: Child)
    requires prefix <= fileRow.path
    ensures child == ChildOf(prefix, fileRow)
  {
    var filePath := fileRow.path;
    var relative := filePath[|prefix|..];
    var slashPos := IndexOf(relative, '/');
    if slashPos == -1 {
      child := Child(relative, filePath, File, Some(fileRow.size), None, 0);
    } else {
      var childName := relative[..slashPos];
      child := Child(childName, prefix + childName + "/", Dir, None, Some(0), 0);
    }
  }

  /** The key list grows with the children. */
  lemma PathsOfSnoc(cs: seq<Child>, c: Child)
    ensures PathsOf(cs + [c]) == PathsOf(cs) + [c.path]
  {
  }

  /** One row more for the listing loop. */
  lemma CollectStep(prefix: string, rows: seq<FileRow>, i: nat)
    requires i < |rows|
    ensures var ds := Dedup(RowChildren(prefix, rows[..i]));
      Dedup(RowChildren(prefix, rows[..i + 1])) ==
        if prefix <= rows[i].path then
          var c := ChildOf(prefix, rows[i]);
          if c.path in PathsOf(ds) then ds else ds + [c]
        else ds
  {
    var before := RowChildren(prefix, rows[..i]);
    assert rows[..i + 1][..i] == rows[..i];
    if prefix <= rows[i].path {
      var c := ChildOf(prefix, rows[i]);
      assert RowChildren(prefix, rows[..i + 1]) == before + [c];
      DedupSnoc(before, c);
    } else {
      assert RowChildren(prefix, rows[..i + 1]) == before;
    }
  }

  /** The listing loop of `get_children`: the `children` dictionary as its values in insertion order,
      with the key set beside them. */
  method CollectChildren(rows: seq<FileRow>, prefix: string) returns (children: seq<Child>)
    ensures children == Collect(prefix, rows)
  {
    children := [];
    var keys: seq<string> := [];
    var i := 0;
    assert rows[..0] == [];
    while i < |rows|
      invariant 0 <= i <= |rows|
      invariant children == Dedup(RowChildren(prefix, rows[..i]))
      invariant keys == PathsOf(children)
    {
      var fileRow := rows[i];
      CollectStep(prefix, rows, i);
      if prefix <= fileRow.path {
        var child := ChildFor(prefix, fileRow);
        if child.path !in keys {
          PathsOfSnoc(children, child);
          children := children + [child];
          keys := keys + [child.path];
        }
      }
      i := i + 1;
    }
    assert rows[..i] == rows;
  }

  /** The counting loop of `get_children`: each file child gets its symbol count, each directory child
      its recursive symbol count and its immediate children. */
  method PopulateChildren(files: seq<FileRow>, symbolFiles: seq<string>, children: seq<Child>)
    returns (populated: seq<Child>)
    ensures populated == PopulateAll(files, symbolFiles, children)
  {
    populated := [];
    var i := 0;
    while i < |children|
      invariant 0 <= i <= |children|
      invariant |populated| == i
      invariant forall k :: 0 <= k < i ==> populated[k] == Populate(files, symbolFiles, children[k])
    {
      var child := children[i];
      if child.kind == File {
        child := child.(symbolCount := CountEq(symbolFiles, child.path));
      } else {
        child := child.(symbolCount := CountUnder(symbolFiles, child.path));
        var childChildren := CountImmediateChildren(files, child.path);
        child := child.(childrenCount := Some(childChildren));
      }
      populated := populated + [child];
      i := i + 1;
    }
  }

  /** `get_children(path)`. */
  method GetChildren(files: seq<FileRow>, symbolFiles: seq<string>, path: string) returns (result: seq<Child>)
    ensures result == Children(files, symbolFiles, path)
  {
    var prefix := DirPrefix(path);
    var allFiles := OrderedFiles(files);
    var children := CollectChildren(allFiles, prefix);
    var populated := PopulateChildren(files, symbolFiles, children);
    ChildLeTotalPreorder();
    result := SortBy(populated, ChildLe);
  }

  predicate DistinctPaths(cs: seq<Child>) {
    forall i, j :: 0 <= i < j < |cs| ==> cs[i].path != cs[j].path
  }

  /** An element at two indices occurs at least twice. */
  lemma TwoCopies<T>(s: seq<T>, i: int, j: int)
    requires 0 <= i < j < |s| && s[i] == s[j]
    ensures multiset(s)[s[i]] >= 2
  {
    assert s == s[..j] + [s[j]] + s[j + 1..];
    assert s[..j][i] == s[i];
    assert multiset(s[..j])[s[i]] >= 1;
  }

  /** Another index holding the same element, when the element occurs at least twice. */
  lemma OtherIndex<T>(s: seq<T>, a: int) returns (b: int)
    requires 0 <= a < |s|
    requires multiset(s)[s[a]] >= 2
    ensures 0 <= b < |s| && b != a && s[b] == s[a]
  {
    var rest := s[..a] + s[a + 1..];
    assert s == s[..a] + [s[a]] + s[a + 1..];
    assert multiset(rest)[s[a]] >= 1;
    assert s[a] in rest;
    var k :| 0 <= k < |rest| && rest[k] == s[a];
    b := if k < a then k else k + 1;
  }

  /** Reordering keeps the paths distinct. */
  lemma DistinctPathsPermutation(a: seq<Child>, b: seq<Child>)
    requires multiset(a) == multiset(b)
    requires DistinctPaths(a)
    ensures DistinctPaths(b)
  {
    forall i, j | 0 <= i < j < |b| ensures b[i].path != b[j].path {
      if b[i].path == b[j].path {
        assert b[i] in multiset(a) && b[j] in multiset(a);
        var x :| 0 <= x < |a| && a[x] == b[i];
        var y :| 0 <= y < |a| && a[y] == b[j];
        if x == y {
          TwoCopies(b, i, j);
          var x' := OtherIndex(a, x);
          assert false;
        } else {
          assert false;
        }
      }
    }
  }

  /** The listing is ordered: directories before files, each group by name. */
  lemma ChildrenSorted(files: seq<FileRow>, symbolFiles: seq<string>, path: string)
    ensures SortedBy(ChildLe, Children(files, symbolFiles, path))
  {
  }

  /** The listing holds one child per path. */
  lemma ChildrenDistinct(files: seq<FileRow>, symbolFiles: seq<string>, path: string)
    ensures DistinctPaths(Children(files, symbolFiles, path))
  {
    var prefix := DirPrefix(path);
    var cs := Collect(prefix, OrderedFiles(files));
    CollectSpec(prefix, OrderedFiles(files));
    var ps := PopulateAll(files, symbolFiles, cs);
    assert DistinctPaths(ps) by {
      forall i, j | 0 <= i < j < |ps| ensures ps[i].path != ps[j].path {
        assert ps[i].path == cs[i].path && ps[j].path == cs[j].path;
      }
    }
    ChildLeTotalPreorder();
    DistinctPathsPermutation(ps, Children(files, symbolFiles, path));
  }

  /** Every child lies under the normalised prefix: it is the child of a file there, with its counts. */
  lemma ChildrenFromFiles(files: seq<FileRow>, symbolFiles: seq<string>, path: string, c: Child)
    requires c in Children(files, symbolFiles, path)
    ensures exists f :: f in files && DirPrefix(path) <= f.path && c == Populate(files, symbolFiles, ChildOf(DirPrefix(path), f))
  {
    var prefix := DirPrefix(path);
    var rows := OrderedFiles(files);
    var cs := Collect(prefix, rows);
    CollectSpec(prefix, rows);
    var ps := PopulateAll(files, symbolFiles, cs);
    ChildLeTotalPreorder();
    assert multiset(Children(files, symbolFiles, path)) == multiset(ps);
    assert c in multiset(ps);
    var a :| 0 <= a < |ps| && ps[a] == c;
    assert cs[a] in cs;
    var f :| f in rows && prefix <= f.path && cs[a] == ChildOf(prefix, f);
    assert f in multiset(rows);
  }

  /** Every file under the normalised prefix has its child in the listing. */
  lemma ChildrenCoverFiles(files: seq<FileRow>, symbolFiles: seq<string>, path: string, f: FileRow)
    requires f in files && DirPrefix(path) <= f.path
    ensures exists c :: c in Children(files, symbolFiles, path) && c.path == ChildOf(DirPrefix(path), f).path
  {
    var prefix := DirPrefix(path);
    var rows := OrderedFiles(files);
    var cs := Collect(prefix, rows);
    CollectSpec(prefix, rows);
    var ps := PopulateAll(files, symbolFiles, cs);
    ChildLeTotalPreorder();
    var result := Children(files, symbolFiles, path);
    assert multiset(result) == multiset(ps);
    assert f in multiset(rows);
    var a :| 0 <= a < |cs| && PathsOf(cs)[a] == ChildOf(prefix, f).path;
    assert ps[a] in multiset(result);
    assert ps[a] in result;
  }

  /** The counts of each child: a file's symbols; a directory's symbols under it, at least those of each
      of its files, and the number of distinct names directly inside it. */
  lemma ChildCounts(files: seq<FileRow>, symbolFiles: seq<string>, path: string, c: Child, f: FileRow)
    requires c in Children(files, symbolFiles, path)
    requires f in files && c.path <= f.path
    ensures c.kind == File ==> c.symbolCount == CountEq(symbolFiles, c.path) && c.childrenCount.None?
    ensures c.kind == Dir ==> && c.childrenCount == Some(|ImmediateNames(files, c.path)|)
                              && CountEq(symbolFiles, f.path) <= c.symbolCount
                              && FirstSegment(f.path[|c.path|..]) in ImmediateNames(files, c.path)
  {
    ChildrenFromFiles(files, symbolFiles, path, c);
    var prefix := DirPrefix(path);
    var g :| g in files && prefix <= g.path && c == Populate(files, symbolFiles, ChildOf(prefix, g));
    if c.kind == Dir {
      CountUnderCoversFile(symbolFiles, c.path, f.path);
      ImmediateNamesSpec(files, c.path, FirstSegment(f.path[|c.path|..]));
      assert NameUnder(c.path, f.path) == Some(FirstSegment(f.path[|c.path|..]));
    }
  }

  /* ---------- text helpers ---------- */

  /** A text contains what occurs in one of its suffixes. */
  lemma ContainsInSuffix(s: string, j: nat, sub: string)
    requires j <= |s| && Contains(s[j..], sub)
    ensures Contains(s, sub)
  {
    ContainsAt(s[j..], sub);
    var i :| OccursAt(s[j..], sub, i);
    assert s[j..][i..i + |sub|] == s[j + i..j + i + |sub|];
    assert OccursAt(s, sub, j + i);
    ContainsAt(s, sub);
  }

  /** Containment is transitive. */
  lemma ContainsTrans(a: string, b: string, c: string)
    requires Contains(a, b) && Contains(b, c)
    ensures Contains(a, c)
  {
    ContainsAt(a, b);
    ContainsAt(b, c);
    var i :| OccursAt(a, b, i);
    var k :| OccursAt(b, c, k);
    forall t | 0 <= t < |c| ensures a[i + k + t] == c[t] {
      assert a[i..i + |b|][k + t] == b[k + t];
      assert b[k..k + |c|][t] == c[t];
    }
    assert a[i + k..i + k + |c|] == c;
    assert OccursAt(a, c, i + k);
    ContainsAt(a, c);
  }

  /** Lower-casing keeps an occurrence. */
  lemma LowerContains(s: string, sub: string)
    requires Contains(s, sub)
    ensures Contains(ToLower(s), ToLower(sub))
  {
    ContainsAt(s, sub);
    var i :| OccursAt(s, sub, i);
    assert ToLower(s)[i..i + |sub|] == ToLower(sub);
    assert OccursAt(ToLower(s), ToLower(sub), i);
    ContainsAt(ToLower(s), ToLower(sub));
  }

  /** Lower-casing keeps a prefix. */
  lemma LowerPrefix(s: string, prefix: string)
    requires prefix <= s
    ensures ToLower(prefix) <= ToLower(s)
  {
    assert ToLower(s)[..|prefix|] == ToLower(prefix);
  }

  /** Every piece `str.split` gives occurs in the text. */
  lemma {:induction false} SplitPiecesOccur(s: string, sep: char)
    ensures forall p :: p in Split(s, sep) ==> Contains(s, p)
    decreases |s|
  {
    var k := IndexOf(s, sep);
    if k != -1 {
      SplitPiecesOccur(s[k + 1..], sep);
      forall p | p in Split(s, sep) ensures Contains(s, p) {
        if p != s[..k] {
          assert p in Split(s[k + 1..], sep);
          ContainsInSuffix(s, k + 1, p);
        }
      }
    }
  }

  /** `Path(path).name`. */
  function FileName(path: string): string {
    Paths.Name(Paths.Parse(path))
  }

  /** The name of a path occurs in it. */
  lemma FileNameOccurs(path: string)
    ensures Contains(path, FileName(path))
  {
    var parts := Paths.Parse(path).parts;
    if |parts| > 0 {
      assert parts[|parts| - 1] in Split(path, '/');
      SplitPiecesOccur(path, '/');
    }
  }

  /* ---------- file search ---------- */

  /** `_calculate_match_score(path, filename, query)` for a query already lower-cased: bonuses for the
      lower-cased name equal to, starting with and containing the query and for the lower-cased path
      containing it, less a tenth of the path length. */
  function MatchScore(path: string, filename: string, query: string): (r: int)
    ensures -(|path| / 10) <= r <= 1610 - |path| / 10
    ensures ToLower(filename) == query ==> 1000 - |path| / 10 <= r
    ensures ToLower(filename) != query ==> r <= 610 - |path| / 10
  {
    var pathLower := ToLower(path);
    var filenameLower := ToLower(filename);
    (if filenameLower == query then 1000 else 0)
    + (if query <= filenameLower then 500 else 0)
    + (if Contains(filenameLower, query) then 100 else 0)
    + (if Contains(pathLower, query) then 10 else 0)
    - |path| / 10
  }

  /** The bonuses nest: a name equal to the query starts with it, a name starting with it contains it,
      and a path contains whatever its name contains. So the score of a path's own name, plus the length
      penalty, is one of five tiers; an exact name match earns all four bonuses. */
  lemma ScoreTiers(path: string, query: string)
    ensures var name := ToLower(FileName(path));
      var tier := MatchScore(path, FileName(path), query) + |path| / 10;
      && tier in {0, 10, 110, 610, 1610}
      && (tier == 1610 <==> name == query)
      && (tier >= 610 <==> query <= name)
      && (tier >= 110 <==> Contains(name, query))
      && (tier >= 10 <==> Contains(ToLower(path), query))
  {
    var name := ToLower(FileName(path));
    FileNameOccurs(path);
    LowerContains(path, FileName(path));
    if Contains(name, query) {
      ContainsTrans(ToLower(path), name, query);
    }
  }

  /** A hit of `search_file`. */
  datatype Hit = Hit(name: string, path: string, size: int, symbolCount: nat)

  /** A hit with the score it is ranked by. */
  datatype Ranked = Ranked(hit: Hit, score: int)

  /** `text LIKE '%' || query || '%'`, which ignores ASCII case: containment after lower-casing. */
  predicate LikeMatch(text: string, query: string) {
    Contains(ToLower(text), ToLower(query))
  }

  /** The rows of `files` whose path matches, in table order. */
  function Matching(files: seq<FileRow>, query: string): (r: seq<FileRow>)
    ensures forall f :: f in r <==> f in files && LikeMatch(f.path, query)
  {
    if |files| == 0 then []
    else
      var n := |files| - 1;
      assert files == files[..n] + [files[n]];
      Matching(files[..n], query) + (if LikeMatch(files[n].path, query) then [files[n]] else [])
  }

  /** `ORDER BY LENGTH(f.path), f.path`. */
  function LengthPathLe(a: FileRow, b: FileRow): bool {
    |a.path| < |b.path| || (|a.path| == |b.path| && StringLe(a.path, b.path))
  }

  /** `a` comes strictly before `b` in `ORDER BY LENGTH(path), path`. */
  predicate ShorterPath(a: string, b: string) {
    |a| < |b| || (|a| == |b| && StringLt(a, b))
  }

  lemma LengthPathLeTotalPreorder()
    ensures TotalPreorder(LengthPathLe)
  {
    StringLeTotalPreorder();
  }

  /** The result rows of the search query: matching, shortest path first, at most 100; when more match,
      the 100 that come first by length and then path. */
  function SearchRows(files: seq<FileRow>, query: string): (r: seq<FileRow>)
    ensures |r| == if |Matching(files, query)| <= 100 then |Matching(files, query)| else 100
    ensures |Matching(files, query)| <= 100 ==> multiset(r) == multiset(Matching(files, query))
    ensures forall f :: f in r ==> f in files && LikeMatch(f.path, query)
  {
    LengthPathLeTotalPreorder();
    var sorted := SortBy(Matching(files, query), LengthPathLe);
    var r := if |sorted| <= 100 then sorted else sorted[..100];
    assert forall f :: f in r ==> f in multiset(sorted);
    r
  }

  /** The rows come in (length, path) order, and every matching row the LIMIT drops comes after each
      row it keeps. */
  lemma SearchRowsShortest(files: seq<FileRow>, query: string)
    ensures var r := SearchRows(files, query);
      && SortedBy(LengthPathLe, r)
      && forall i, g :: 0 <= i < |r| && g in Matching(files, query) && g !in r ==> LengthPathLe(r[i], g)
  {
    LengthPathLeTotalPreorder();
    var sorted := SortBy(Matching(files, query), LengthPathLe);
    var r := SearchRows(files, query);
    assert r == if |sorted| <= 100 then sorted else sorted[..100];
    forall i, g | 0 <= i < |r| && g in Matching(files, query) && g !in r
      ensures LengthPathLe(r[i], g)
    {
      assert g in multiset(sorted);
      var j :| 0 <= j < |sorted| && sorted[j] == g;
      assert i < j;
    }
  }

  /** The result built for one row, with its score; `query` is the lower-cased query. */
  function RankedOf(f: FileRow, symbolFiles: seq<string>, query: string): (r: Ranked)
    ensures r.hit.path == f.path && r.hit.size == f.size && r.hit.name == FileName(f.path)
    ensures r.hit.symbolCount == CountEq(symbolFiles, f.path)
    ensures r.score == MatchScore(r.hit.path, r.hit.name, query)
  {
    var filename := FileName(f.path);
    Ranked(Hit(filename, f.path, f.size, CountEq(symbolFiles, f.path)), MatchScore(f.path, filename, query))
  }

  /** `f` applied to each element of `xs`, in order. */
  function MapRows<A, B>(xs: seq<A>, f: A -> B): (ys: seq<B>)
    ensures |ys| == |xs|
  {
    if |xs| == 0 then [] else MapRows(xs[..|xs| - 1], f) + [f(xs[|xs| - 1])]
  }

  lemma {:induction false} MapRowsAt<A, B>(xs: seq<A>, f: A -> B, i: nat)
    requires i < |xs|
    ensures MapRows(xs, f)[i] == f(xs[i])
  {
    var n := |xs| - 1;
    if i < n {
      MapRowsAt(xs[..n], f, i);
      assert xs[..n][i] == xs[i];
    }
  }

  lemma MapRowsStep<A, B>(xs: seq<A>, f: A -> B, i: nat)
    requires i < |xs|
    ensures MapRows(xs[..i + 1], f) == MapRows(xs[..i], f) + [f(xs[i])]
  {
    assert xs[..i + 1][..i] == xs[..i];
  }

  /** The result built for a row, as a function of the row. */
  function RankOf(symbolFiles: seq<string>, query: string): FileRow -> Ranked
  {
    row => RankedOf(row, symbolFiles, query)
  }

  /** The results built for `rows`, in order. */
  function RankedAll(rows: seq<FileRow>, symbolFiles: seq<string>, query: string): (rs: seq<Ranked>)
    ensures |rs| == |rows|
  {
    MapRows(rows, RankOf(symbolFiles, query))
  }

  /** The `i`-th result is the one built for the `i`-th row. */
  lemma RankedAllAt(rows: seq<FileRow>, symbolFiles: seq<string>, query: string, i: nat)
    requires i < |rows|
    ensures RankedAll(rows, symbolFiles, query)[i] == RankedOf(rows[i], symbolFiles, query)
  {
    MapRowsAt(rows, RankOf(symbolFiles, query), i);
  }

  /** The key `(-score, len(path), path)`. */
  function RankLe(a: Ranked, b: Ranked): bool {
    a.score > b.score
    || (a.score == b.score && (|a.hit.path| < |b.hit.path|
                               || (|a.hit.path| == |b.hit.path| && StringLe(a.hit.path, b.hit.path))))
  }

  lemma RankLeTotalPreorder()
    ensures TotalPreorder(RankLe)
  {
    StringLeTotalPreorder();
  }

  function HitsOf(rs: seq<Ranked>): (hs: seq<Hit>)
    ensures |hs| == |rs|
    ensures forall i :: 0 <= i < |rs| ==> hs[i] == rs[i].hit
  {
    seq(|rs|, i requires 0 <= i < |rs| => rs[i].hit)
  }

  /** The results of the rows, best first. */
  function RankedResults(rows: seq<FileRow>, symbolFiles: seq<string>, q: string): (r: seq<Ranked>)
    ensures SortedBy(RankLe, r)
    ensures multiset(r) == multiset(RankedAll(rows, symbolFiles, q))
  {
    RankLeTotalPreorder();
    SortBy(RankedAll(rows, symbolFiles, q), RankLe)
  }

  /** What `search_file(query)` returns. */
  function SearchResults(files: seq<FileRow>, symbolFiles: seq<string>, query: string): seq<Hit>
  {
    if query == "" then [] else HitsOf(RankedResults(SearchRows(files, query), symbolFiles, ToLower(query)))
  }

  /** The result `search_file` builds for one row, with its score. */
  method RankedFor(row: FileRow, symbolFiles: seq<string>, query: string) returns (result: Ranked)
    ensures result == RankedOf(row, symbolFiles, query)
  {
    var filePath := row.path;
    var filename := FileName(filePath);
    var score := MatchScore(filePath, filename, query);
    result := Ranked(Hit(filename, filePath, row.size, CountEq(symbolFiles, filePath)), score);
  }

  /** The loop of `search_file` that builds one result per row. */
  method RankRows(rows: seq<FileRow>, symbolFiles: seq<string>, query: string) returns (results: seq<Ranked>)
    ensures results == RankedAll(rows, symbolFiles, query)
  {
    results := [];
    var i := 0;
    while i < |rows|
      invariant 0 <= i <= |rows|
      invariant results == RankedAll(rows[..i], symbolFiles, query)
    {
      MapRowsStep(rows, RankOf(symbolFiles, query), i);
      var result := RankedFor(rows[i], symbolFiles, query);
      results := results + [result];
      i := i + 1;
    }
    assert rows[..i] == rows;
  }

  /** The loop of `search_file` that deletes the score of every result. */
  method DropScores(ranked: seq<Ranked>) returns (hits: seq<Hit>)
    ensures hits == HitsOf(ranked)
  {
    hits := [];
    var i := 0;
    while i < |ranked|
      invariant 0 <= i <= |ranked|
      invariant |hits| == i
      invariant forall k :: 0 <= k < i ==> hits[k] == ranked[k].hit
    {
      hits := hits + [ranked[i].hit];
      i := i + 1;
    }
  }

  /** `search_file(query)`. */
  method SearchFile(files: seq<FileRow>, symbolFiles: seq<string>, query: string) returns (hits: seq<Hit>)
    ensures hits == SearchResults(files, symbolFiles, query)
  {
    if query == "" {
      return [];
    }
    var rows := SearchRows(files, query);
    var results := RankRows(rows, symbolFiles, ToLower(query));
    RankLeTotalPreorder();
    var sorted := SortBy(results, RankLe);
    assert sorted == RankedResults(rows, symbolFiles, ToLower(query));
    hits := DropScores(sorted);
  }

  /** Every hit, for any arrangement `sorted` of the results of the rows `rows`, is a row's file with its
      name and symbol count. */
  lemma HitsSound(rows: seq<FileRow>, symbolFiles: seq<string>, q: string, sorted: seq<Ranked>)
    requires multiset(sorted) == multiset(RankedAll(rows, symbolFiles, q))
    ensures forall h :: h in HitsOf(sorted) ==>
      && (exists f :: f in rows && f.path == h.path && f.size == h.size)
      && h.name == FileName(h.path)
      && h.symbolCount == CountEq(symbolFiles, h.path)
  {
    var rs := RankedAll(rows, symbolFiles, q);
    var hits := HitsOf(sorted);
    forall h | h in hits
      ensures exists f :: f in rows && f.path == h.path && f.size == h.size
      ensures h.name == FileName(h.path) && h.symbolCount == CountEq(symbolFiles, h.path)
    {
      var i :| 0 <= i < |hits| && hits[i] == h;
      assert sorted[i] in multiset(rs);
      var k :| 0 <= k < |rs| && rs[k] == sorted[i];
      RankedAllAt(rows, symbolFiles, q, k);
      assert rows[k] in rows;
    }
  }

  /** Every row has a hit, for any arrangement `sorted` of the results of the rows. */
  lemma HitsComplete(rows: seq<FileRow>, symbolFiles: seq<string>, q: string, sorted: seq<Ranked>)
    requires multiset(sorted) == multiset(RankedAll(rows, symbolFiles, q))
    ensures forall f :: f in rows ==> exists h :: h in HitsOf(sorted) && h.path == f.path
  {
    var rs := RankedAll(rows, symbolFiles, q);
    var hits := HitsOf(sorted);
    forall f | f in rows
      ensures exists h :: h in hits && h.path == f.path
    {
      var k :| 0 <= k < |rows| && rows[k] == f;
      RankedAllAt(rows, symbolFiles, q, k);
      assert rs[k] in multiset(sorted);
      var i :| 0 <= i < |sorted| && sorted[i] == rs[k];
      assert hits[i] in hits;
    }
  }

  /** An empty query finds nothing. Otherwise there are at most 100 hits, each a file whose path contains
      the query ignoring case, carrying its name and symbol count; and when no more than 100 files match,
      every matching file is a hit. */
  lemma SearchHits(files: seq<FileRow>, symbolFiles: seq<string>, query: string)
    ensures query == "" ==> SearchResults(files, symbolFiles, query) == []
    ensures |SearchResults(files, symbolFiles, query)| <= 100
    ensures forall h :: h in SearchResults(files, symbolFiles, query) ==>
      && (exists f :: f in files && f.path == h.path && f.size == h.size)
      && LikeMatch(h.path, query)
      && h.name == FileName(h.path)
      && h.symbolCount == CountEq(symbolFiles, h.path)
    ensures query != "" && |Matching(files, query)| <= 100 ==>
      forall f :: f in files && LikeMatch(f.path, query) ==>
        exists h :: h in SearchResults(files, symbolFiles, query) && h.path == f.path
  {
    if query != "" {
      var q := ToLower(query);
      var rows := SearchRows(files, query);
      var sorted := RankedResults(rows, symbolFiles, q);
      assert |sorted| == |RankedAll(rows, symbolFiles, q)| by {
        assert |multiset(sorted)| == |multiset(RankedAll(rows, symbolFiles, q))|;
      }
      HitsSound(rows, symbolFiles, q, sorted);
      HitsComplete(rows, symbolFiles, q, sorted);
      if |Matching(files, query)| <= 100 {
        forall f | f in files && LikeMatch(f.path, query) ensures f in rows {
          assert f in multiset(Matching(files, query));
        }
      }
    }
  }

  /** With more than 100 matching files there are exactly 100 hits, and the LIMIT drops only the longest
      paths: a matching file whose path comes before a hit's in (length, path) order is a hit too. */
  lemma SearchHitsShortest(files: seq<FileRow>, symbolFiles: seq<string>, query: string)
    ensures query != "" && |Matching(files, query)| > 100 ==> |SearchResults(files, symbolFiles, query)| == 100
    ensures forall h, g :: h in SearchResults(files, symbolFiles, query) && g in files && LikeMatch(g.path, query)
                           && ShorterPath(g.path, h.path) ==>
      exists h' :: h' in SearchResults(files, symbolFiles, query) && h'.path == g.path
  {
    if query != "" {
      var q := ToLower(query);
      var rows := SearchRows(files, query);
      var sorted := RankedResults(rows, symbolFiles, q);
      assert |sorted| == |RankedAll(rows, symbolFiles, q)| by {
        assert |multiset(sorted)| == |multiset(RankedAll(rows, symbolFiles, q))|;
      }
      HitsSound(rows, symbolFiles, q, sorted);
      HitsComplete(rows, symbolFiles, q, sorted);
      ShortestKept(files, query);
    }
  }

  /** A matching file that comes strictly before some returned row in (length, path) order is returned too:
      the LIMIT drops only the longest paths. */
  lemma ShortestKept(files: seq<FileRow>, query: string)
    ensures var rows := SearchRows(files, query);
      forall f, g :: f in rows && g in files && LikeMatch(g.path, query) && ShorterPath(g.path, f.path) ==> g in rows
  {
    var rows := SearchRows(files, query);
    SearchRowsShortest(files, query);
    StringLeTotalPreorder();
    forall f, g | f in rows && g in files && LikeMatch(g.path, query) && ShorterPath(g.path, f.path)
      ensures g in rows
    {
      var i :| 0 <= i < |rows| && rows[i] == f;
      if g !in rows {
        assert false;
      }
    }
  }

  /** The hits come best first: a higher score, then a shorter path, then the smaller path, where the
      score is `_calculate_match_score` of the hit's path and name. */
  lemma SearchOrdered(files: seq<FileRow>, symbolFiles: seq<string>, query: string)
    ensures var hits := SearchResults(files, symbolFiles, query); var q := ToLower(query);
      forall i, j :: 0 <= i < j < |hits| ==>
        RankLe(Ranked(hits[i], MatchScore(hits[i].path, hits[i].name, q)),
               Ranked(hits[j], MatchScore(hits[j].path, hits[j].name, q)))
  {
    if query != "" {
      var q := ToLower(query);
      var rs := RankedAll(SearchRows(files, query), symbolFiles, q);
      var sorted := RankedResults(SearchRows(files, query), symbolFiles, q);
      forall i | 0 <= i < |sorted| ensures sorted[i].score == MatchScore(sorted[i].hit.path, sorted[i].hit.name, q) {
        assert sorted[i] in multiset(rs);
        var k :| 0 <= k < |rs| && rs[k] == sorted[i];
        RankedAllAt(SearchRows(files, query), symbolFiles, q, k);
      }
    }
  }

  /* ---------- symbol search helpers ---------- */

  /** `_escape_fts5_query`'s `replace('"', '""')`. */
  function DoubleQuotes(s: string): (r: string)
    ensures |r| >= |s|
  {
    if |s| == 0 then ""
    else (if s[0] == '"' then "\"\"" else [s[0]]) + DoubleQuotes(s[1..])
  }

  /** Reads doubled quotes back as one; the inverse of `DoubleQuotes`. */
  function UndoubleQuotes(s: string): string
  {
    if |s| == 0 then ""
    else if |s| >= 2 && s[0] == '"' && s[1] == '"' then "\"" + UndoubleQuotes(s[2..])
    else [s[0]] + UndoubleQuotes(s[1..])
  }

  /** Undoubling gives back the text whose quotes were doubled. */
  lemma {:induction false} UndoubleDouble(s: string)
    ensures UndoubleQuotes(DoubleQuotes(s)) == s
  {
    if |s| > 0 {
      UndoubleDouble(s[1..]);
      var head := if s[0] == '"' then "\"\"" else [s[0]];
      assert DoubleQuotes(s) == head + DoubleQuotes(s[1..]);
      assert (head + DoubleQuotes(s[1..]))[|head|..] == DoubleQuotes(s[1..]);
      assert s == [s[0]] + s[1..];
    }
  }

  /** `_escape_fts5_query`: the query as one FTS5 phrase, quotes doubled. */
  function EscapeFts5(query: string): (r: string)
    ensures |r| >= 2 && r[0] == '"' && r[|r| - 1] == '"'
    ensures UndoubleQuotes(r[1..|r| - 1]) == query
  {
    var escaped := DoubleQuotes(query);
    var r := "\"" + escaped + "\"";
    assert r[1..|r| - 1] == escaped;
    UndoubleDouble(query);
    r
  }

  /** `_get_match_context(name, file_path, signature, query)` for a lower-cased query: which field the
      query was found in, checking the name, then a non-empty signature, then the file path. */
  function MatchContext(name: string, filePath: string, signature: Option<string>, query: string): (r: string)
    ensures r in {"name", "signature", "file", "fuzzy"}
    ensures r == "name" <==> Contains(ToLower(name), query)
    ensures r == "signature" <==> !Contains(ToLower(name), query) && Truthy(signature) && Contains(ToLower(signature.value), query)
    ensures r == "file" ==> Contains(ToLower(filePath), query)
    ensures r == "fuzzy" ==> !Contains(ToLower(name), query) && !Contains(ToLower(filePath), query)
  {
    var sigLower := if signature.Some? then ToLower(signature.value) else "";
    if Contains(ToLower(name), query) then "name"
    else if Truthy(signature) && Contains(sigLower, query) then "signature"
    else if Contains(ToLower(filePath), query) then "file"
    else "fuzzy"
  }

  /** `match_in` of `search_symbol_infile` for the query `query`: the name, else a non-empty
      signature, that contains it ignoring case, else "unknown". */
  function MatchIn(name: string, signature: Option<string>, query: string): (r: string)
    ensures r in {"name", "signature", "unknown"}
    ensures r == "name" <==> LikeMatch(name, query)
    ensures r == "unknown" <==> !LikeMatch(name, query) && !(Truthy(signature) && LikeMatch(signature.value, query))
  {
    var nameMatch := Contains(ToLower(name), ToLower(query));
    var sigMatch := Truthy(signature) && Contains(ToLower(signature.value), ToLower(query));
    if nameMatch then "name" else if sigMatch then "signature" else "unknown"
  }

  /** The in-file search and the global search name the same field whenever one of them finds the query
      in the name or the signature; where the in-file search says "unknown", the global one says "file"
      or "fuzzy". */
  lemma MatchInAgrees(name: string, filePath: string, signature: Option<string>, query: string)
    ensures var g := MatchContext(name, filePath, signature, ToLower(query));
      var m := MatchIn(name, signature, query);
      && (m == "name" <==> g == "name")
      && (m == "signature" <==> g == "signature")
      && (m == "unknown" <==> g in {"file", "fuzzy"})
  {
  }

  /** `_format_scope(scope_kind, scope_name)`. */
  function FormatScope(scopeKind: Option<string>, scopeName: Option<string>): (r: string)
    ensures r == "" <==> !Truthy(scopeName)
    ensures Truthy(scopeName) ==> EndsWith(r, scopeName.value)
    ensures Truthy(scopeKind) && Truthy(scopeName) ==>
      && |r| == |scopeKind.value| + 1 + |scopeName.value|
      && r[..|scopeKind.value|] == scopeKind.value && r[|scopeKind.value|] == ' '
    ensures !Truthy(scopeKind) && Truthy(scopeName) ==> r == scopeName.value
  {
    if Truthy(scopeKind) && Truthy(scopeName) then
      var r := scopeKind.value + " " + scopeName.value;
      assert r[|r| - |scopeName.value|..] == scopeName.value;
      r
    else if Truthy(scopeName) then scopeName.value
    else ""
  }

  /* ---------- symbol search ---------- */

  /** A row of the `symbols` table as the symbol searches read it. */
  datatype SymbolRow = SymbolRow(
    id: int, name: string, kind: string, filePath: string, line: int,
    signature: Option<string>, scopeKind: Option<string>, scopeName: Option<string>)

  /** A result of `search_symbol_global`. */
  datatype GlobalHit = GlobalHit(
    id: int, name: string, kind: string, filePath: string, line: int,
    signature: string, scope: string, matchContext: string)

  /** A result of `search_symbol_infile`. */
  datatype InfileHit = InfileHit(
    id: int, name: string, kind: string, line: int, signature: string, scope: string, matchIn: string)

  /** `row['signature'] or ""`. */
  function SignatureText(signature: Option<string>): (r: string)
    ensures Truthy(signature) ==> r == signature.value
    ensures !Truthy(signature) ==> r == ""
  {
    if signature.Some? then signature.value else ""
  }

  /** The result `search_symbol_global` builds for one row the full-text query returned. */
  function GlobalHitOf(row: SymbolRow, query: string): (h: GlobalHit)
    ensures h.id == row.id && h.name == row.name && h.filePath == row.filePath && h.line == row.line
    ensures h.matchContext == MatchContext(row.name, row.filePath, row.signature, ToLower(query))
  {
    GlobalHit(row.id, row.name, row.kind, row.filePath, row.line, SignatureText(row.signature),
              FormatScope(row.scopeKind, row.scopeName),
              MatchContext(row.name, row.filePath, row.signature, ToLower(query)))
  }

  /** What `search_symbol_global(query)` returns, given the rows the full-text query ranked. */
  function GlobalResults(ftsRows: seq<SymbolRow>, query: string): seq<GlobalHit>
  {
    if query == "" then [] else seq(|ftsRows|, i requires 0 <= i < |ftsRows| => GlobalHitOf(ftsRows[i], query))
  }

  /** The loop of `search_symbol_global` over the rows of the full-text query, in rank order. */
  method SearchSymbolGlobal(ftsRows: seq<SymbolRow>, query: string) returns (hits: seq<GlobalHit>)
    ensures hits == GlobalResults(ftsRows, query)
  {
    if query == "" {
      return [];
    }
    hits := [];
    var i := 0;
    while i < |ftsRows|
      invariant 0 <= i <= |ftsRows|
      invariant |hits| == i
      invariant forall k :: 0 <= k < i ==> hits[k] == GlobalHitOf(ftsRows[k], query)
    {
      var row := ftsRows[i];
      var context := MatchContext(row.name, row.filePath, row.signature, ToLower(query));
      var hit := GlobalHit(row.id, row.name, row.kind, row.filePath, row.line, SignatureText(row.signature),
                           FormatScope(row.scopeKind, row.scopeName), context);
      hits := hits + [hit];
      i := i + 1;
    }
  }

  /** An empty query finds nothing; otherwise the hits keep the rank order of the full-text rows, one
      per row, and a hit says "name" exactly when its name contains the query ignoring case. */
  lemma GlobalHits(ftsRows: seq<SymbolRow>, query: string)
    ensures query == "" ==> GlobalResults(ftsRows, query) == []
    ensures query != "" ==> |GlobalResults(ftsRows, query)| == |ftsRows|
    ensures query != "" ==> forall i :: 0 <= i < |ftsRows| ==>
      && GlobalResults(ftsRows, query)[i].id == ftsRows[i].id
      && (GlobalResults(ftsRows, query)[i].matchContext == "name" <==> LikeMatch(ftsRows[i].name, query))
  {
  }

  /** `WHERE file_path = ? AND (name LIKE ? OR signature LIKE ?)`; a NULL signature matches nothing. */
  predicate InfileMatches(row: SymbolRow, query: string, filePath: string) {
    row.filePath == filePath
    && (LikeMatch(row.name, query) || (row.signature.Some? && LikeMatch(row.signature.value, query)))
  }

  /** The rows of the in-file query, in table order. */
  function InfileRows(symbols: seq<SymbolRow>, query: string, filePath: string): seq<SymbolRow>
  {
    if |symbols| == 0 then []
    else
      var n := |symbols| - 1;
      InfileRows(symbols[..n], query, filePath)
      + (if InfileMatches(symbols[n], query, filePath) then [symbols[n]] else [])
  }

  /** The in-file query selects exactly the matching rows. */
  lemma {:induction false} InfileRowsSpec(symbols: seq<SymbolRow>, query: string, filePath: string)
    ensures forall row :: row in InfileRows(symbols, query, filePath) <==> row in symbols && InfileMatches(row, query, filePath)
  {
    if |symbols| > 0 {
      var n := |symbols| - 1;
      InfileRowsSpec(symbols[..n], query, filePath);
      assert symbols == symbols[..n] + [symbols[n]];
    }
  }

  /** `ORDER BY line_number`. */
  function LineLe(a: SymbolRow, b: SymbolRow): bool {
    a.line <= b.line
  }

  lemma LineLeTotalPreorder()
    ensures TotalPreorder(LineLe)
  {
  }

  /** The result `search_symbol_infile` builds for one row. */
  function InfileHitOf(row: SymbolRow, query: string): (h: InfileHit)
    ensures h.id == row.id && h.name == row.name && h.line == row.line
    ensures h.matchIn == MatchIn(row.name, row.signature, query)
  {
    InfileHit(row.id, row.name, row.kind, row.line, SignatureText(row.signature),
              FormatScope(row.scopeKind, row.scopeName), MatchIn(row.name, row.signature, query))
  }

  function InfileHitsOf(rows: seq<SymbolRow>, query: string): (hs: seq<InfileHit>)
    ensures |hs| == |rows|
    ensures forall i :: 0 <= i < |rows| ==> hs[i] == InfileHitOf(rows[i], query)
  {
    seq(|rows|, i requires 0 <= i < |rows| => InfileHitOf(rows[i], query))
  }

  /** The rows of the in-file query in `ORDER BY line_number` order. */
  function SortedInfileRows(symbols: seq<SymbolRow>, query: string, filePath: string): (r: seq<SymbolRow>)
    ensures SortedBy(LineLe, r)
    ensures multiset(r) == multiset(InfileRows(symbols, query, filePath))
  {
    LineLeTotalPreorder();
    SortBy(InfileRows(symbols, query, filePath), LineLe)
  }

  /** What `search_symbol_infile(query, file_path)` returns. */
  function InfileResults(symbols: seq<SymbolRow>, query: string, filePath: string): seq<InfileHit>
  {
    if query == "" || filePath == "" then []
    else InfileHitsOf(SortedInfileRows(symbols, query, filePath), query)
  }

  /** The result `search_symbol_infile` builds for one row. */
  method InfileHitFor(row: SymbolRow, query: string) returns (hit: InfileHit)
    ensures hit == InfileHitOf(row, query)
  {
    var matchIn := MatchIn(row.name, row.signature, query);
    hit := InfileHit(row.id, row.name, row.kind, row.line, SignatureText(row.signature),
                     FormatScope(row.scopeKind, row.scopeName), matchIn);
  }

  /** The loop of `search_symbol_infile` that builds one result per row. */
  method InfileLoop(rows: seq<SymbolRow>, query: string) returns (hits: seq<InfileHit>)
    ensures hits == InfileHitsOf(rows, query)
  {
    hits := [];
    var i := 0;
    while i < |rows|
      invariant 0 <= i <= |rows|
      invariant |hits| == i
      invariant forall k :: 0 <= k < i ==> hits[k] == InfileHitOf(rows[k], query)
    {
      var hit := InfileHitFor(rows[i], query);
      hits := hits + [hit];
      i := i + 1;
    }
  }

  /** `search_symbol_infile(query, file_path)`. */
  method SearchSymbolInfile(symbols: seq<SymbolRow>, query: string, filePath: string) returns (hits: seq<InfileHit>)
    ensures hits == InfileResults(symbols, query, filePath)
  {
    if query == "" || filePath == "" {
      return [];
    }
    var rows := SortedInfileRows(symbols, query, filePath);
    hits := InfileLoop(rows, query);
  }

  /** With `LIKE` read as literal containment, a row the in-file query selects matched the query in its
      name or its non-empty signature, so its `match_in` is never "unknown". */
  lemma InfileMatchKnown(row: SymbolRow, query: string, filePath: string)
    requires query != "" && InfileMatches(row, query, filePath)
    ensures MatchIn(row.name, row.signature, query) != "unknown"
  {
    if !LikeMatch(row.name, query) {
      ContainsAt(ToLower(row.signature.value), ToLower(query));
    }
  }

  /** Every in-file result, for any arrangement `rows` of the selected rows `selected`, comes from a
      selected row and, with `LIKE` read as literal containment, names where the query matched. */
  lemma InfileHitsSound(symbols: seq<SymbolRow>, query: string, filePath: string, selected: seq<SymbolRow>, rows: seq<SymbolRow>)
    requires query != ""
    requires forall row :: row in selected ==> row in symbols && InfileMatches(row, query, filePath)
    requires multiset(rows) == multiset(selected)
    ensures forall h :: h in InfileHitsOf(rows, query) ==>
      && h.matchIn != "unknown"
      && exists row :: row in symbols && InfileMatches(row, query, filePath) && row.id == h.id && row.line == h.line
  {
    var hits := InfileHitsOf(rows, query);
    forall h | h in hits
      ensures h.matchIn != "unknown"
      ensures exists row :: row in symbols && InfileMatches(row, query, filePath) && row.id == h.id && row.line == h.line
    {
      var i :| 0 <= i < |hits| && hits[i] == h;
      assert rows[i] in multiset(selected);
      InfileMatchKnown(rows[i], query, filePath);
    }
  }

  /** Every selected row has an in-file result. */
  lemma InfileHitsComplete(symbols: seq<SymbolRow>, query: string, filePath: string, selected: seq<SymbolRow>, rows: seq<SymbolRow>)
    requires forall row :: row in symbols && InfileMatches(row, query, filePath) ==> row in selected
    requires multiset(rows) == multiset(selected)
    ensures forall row :: row in symbols && InfileMatches(row, query, filePath) ==>
      exists h :: h in InfileHitsOf(rows, query) && h.id == row.id
  {
    var hits := InfileHitsOf(rows, query);
    forall row | row in symbols && InfileMatches(row, query, filePath)
      ensures exists h :: h in hits && h.id == row.id
    {
      assert row in multiset(rows);
      var i :| 0 <= i < |rows| && rows[i] == row;
      assert hits[i] in hits;
    }
  }

  /** The in-file search returns, in line order, one hit for every symbol of the file whose name or
      signature contains the query ignoring case, and nothing else; with `LIKE` read as literal
      containment the query already matched the name or the signature, so no hit says "unknown". */
  lemma InfileHits(symbols: seq<SymbolRow>, query: string, filePath: string)
    ensures query == "" || filePath == "" ==> InfileResults(symbols, query, filePath) == []
    ensures var hits := InfileResults(symbols, query, filePath);
      && (forall i, j :: 0 <= i < j < |hits| ==> hits[i].line <= hits[j].line)
      && (forall h :: h in hits ==>
            && h.matchIn != "unknown"
            && exists row :: row in symbols && InfileMatches(row, query, filePath) && row.id == h.id && row.line == h.line)
      && (query != "" && filePath != "" ==>
            forall row :: row in symbols && InfileMatches(row, query, filePath) ==> exists h :: h in hits && h.id == row.id)
  {
    if query != "" && filePath != "" {
      InfileRowsSpec(symbols, query, filePath);
      var selected := InfileRows(symbols, query, filePath);
      var rows := SortedInfileRows(symbols, query, filePath);
      InfileHitsSound(symbols, query, filePath, selected, rows);
      InfileHitsComplete(symbols, query, filePath, selected, rows);
    }
  }
}
