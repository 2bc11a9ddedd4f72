/** Sorting as Python's `sorted`/`list.sort` does it, for the orders the
    source sorts by, and the lexicographic order Python uses on strings
    (by code point) and on path part lists. */
module Sorting {

  /** `le` is total and transitive: what a sort key comparison provides. */
  ghost predicate TotalPreorder<T(!new)>(le: (T, T) -> bool) {
    && (forall x, y :: le(x, y) || le(y, x))
    && (forall x, y, z :: le(x, y) && le(y, z) ==> le(x, z))
  }

  predicate SortedBy<T>(le: (T, T) -> bool, s: seq<T>) {
    forall i, j :: 0 <= i < j < |s| ==> le(s[i], s[j])
  }

  /** Inserts `x` in front of the first element it is ordered before or ties with; inserting the earlier elements last keeps ties in input order, as Python's stable sort does. */
  function Insert<T(!new)>(x: T, s: seq<T>, le: (T, T) -> bool): (r: seq<T>)
    requires TotalPreorder(le)
    requires SortedBy(le, s)
    ensures SortedBy(le, r)
    ensures multiset(r) == multiset(s) + multiset{x}
  {
    if |s| == 0 then [x]
    else if le(x, s[0]) then [x] + s
    else
      var t := Insert(x, s[1..], le);
      assert s == [s[0]] + s[1..];
      BoundKept(s[0], x, s[1..], t, le);
      [s[0]] + t
  }

  /** A lower bound of `x` and of every element of `s` bounds every element of a permutation of `s` and `x`. */
  lemma BoundKept<T>(b: T, x: T, s: seq<T>, t: seq<T>, le: (T, T) -> bool)
    requires le(b, x) && forall k :: 0 <= k < |s| ==> le(b, s[k])
    requires multiset(t) == multiset(s) + multiset{x}
    ensures forall k :: 0 <= k < |t| ==> le(b, t[k])
  {
    forall k | 0 <= k < |t| ensures le(b, t[k]) {
      assert t[k] in multiset(t);
      if t[k] != x {
        assert t[k] in multiset(s);
        var j :| 0 <= j < |s| && s[j] == t[k];
      }
    }
  }

  /** Insertion sort: sorted by `le` and a permutation of the input. */
  function SortBy<T(!new)>(s: seq<T>, le: (T, T) -> bool): (r: seq<T>)
    requires TotalPreorder(le)
    ensures SortedBy(le, r)
    ensures multiset(r) == multiset(s)
    ensures |r| == |s|
  {
    if |s| == 0 then []
    else
      assert s == [s[0]] + s[1..];
      var r := Insert(s[0], SortBy(s[1..], le), le);
      assert |r| == |multiset(r)|;
      r
  }

  /** A strict total order on elements. */
  ghost predicate StrictTotalOrder<T(!new)>(lt: (T, T) -> bool) {
    && (forall x :: !lt(x, x))
    && (forall x, y, z :: lt(x, y) && lt(y, z) ==> lt(x, z))
    && (forall x, y :: x != y ==> lt(x, y) || lt(y, x))
  }

  /** Lexicographic order on sequences: a proper prefix comes first, otherwise the first differing element decides. */
  predicate LexLe<T(==)>(a: seq<T>, b: seq<T>, lt: (T, T) -> bool) {
    |a| == 0 || (|b| > 0 && if a[0] == b[0] then LexLe(a[1..], b[1..], lt) else lt(a[0], b[0]))
  }

  lemma {:induction false} LexLeTotal<T(!new)>(a: seq<T>, b: seq<T>, lt: (T, T) -> bool)
    requires StrictTotalOrder(lt)
    ensures LexLe(a, b, lt) || LexLe(b, a, lt)
  {
    if |a| > 0 && |b| > 0 && a[0] == b[0] {
      LexLeTotal(a[1..], b[1..], lt);
    }
  }

  lemma {:induction false} LexLeTrans<T(!new)>(a: seq<T>, b: seq<T>, c: seq<T>, lt: (T, T) -> bool)
    requires StrictTotalOrder(lt)
    requires LexLe(a, b, lt) && LexLe(b, c, lt)
    ensures LexLe(a, c, lt)
  {
    if |a| > 0 && a[0] == b[0] && b[0] == c[0] {
      LexLeTrans(a[1..], b[1..], c[1..], lt);
    }
  }

  lemma {:induction false} LexLeAntisym<T(!new)>(a: seq<T>, b: seq<T>, lt: (T, T) -> bool)
    requires StrictTotalOrder(lt)
    requires LexLe(a, b, lt) && LexLe(b, a, lt)
    ensures a == b
  {
    if |a| > 0 {
      LexLeAntisym(a[1..], b[1..], lt);
      assert a == [a[0]] + a[1..] && b == [b[0]] + b[1..];
    }
  }

  function CharLt(c: char, d: char): bool {
    c < d
  }

  /** Python's `<=` on str: lexicographic by code point. */
  function StringLe(a: string, b: string): bool {
    LexLe(a, b, CharLt)
  }

  /** Python's `<` on str. */
  function StringLt(a: string, b: string): bool {
    StringLe(a, b) && a != b
  }

  lemma CharLtStrict()
    ensures StrictTotalOrder(CharLt)
  {
  }

  lemma StringLeTotalPreorder()
    ensures TotalPreorder(StringLe)
    ensures forall a, b :: StringLe(a, b) && StringLe(b, a) ==> a == b
  {
    CharLtStrict();
    forall a, b ensures StringLe(a, b) || StringLe(b, a) {
      LexLeTotal(a, b, CharLt);
    }
    forall a, b, c | StringLe(a, b) && StringLe(b, c) ensures StringLe(a, c) {
      LexLeTrans(a, b, c, CharLt);
    }
    forall a, b | StringLe(a, b) && StringLe(b, a) ensures a == b {
      LexLeAntisym(a, b, CharLt);
    }
  }

  lemma StringLtStrict()
    ensures StrictTotalOrder(StringLt)
  {
    StringLeTotalPreorder();
  }

  /** The order of pathlib paths: their part lists compared lexicographically. */
  function PartsLe(a: seq<string>, b: seq<string>): bool {
    LexLe(a, b, StringLt)
  }

  lemma PartsLeTotalPreorder()
    ensures TotalPreorder(PartsLe)
  {
    StringLtStrict();
    forall a, b ensures PartsLe(a, b) || PartsLe(b, a) {
      LexLeTotal(a, b, StringLt);
    }
    forall a, b, c | PartsLe(a, b) && PartsLe(b, c) ensures PartsLe(a, c) {
      LexLeTrans(a, b, c, StringLt);
    }
  }
}
