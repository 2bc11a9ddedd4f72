/** Text helpers with Python's meaning: character classes, ASCII lower-casing,
    substring search, str.find, str.split/str.join on one character,
    str.strip, str(int) and int(str). Python applies several of these to all
    of Unicode; here they are stated for ASCII (see README, "Left out"). */
module Strings {
  import opened Wrappers

  /** Python truthiness of an optional string: present and non-empty. */
  predicate Truthy(s: Option<string>) {
    s.Some? && s.value != ""
  }

  /** A character of `\w` on ASCII text: letter, digit or underscore. */
  predicate IsWordChar(c: char) {
    'a' <= c <= 'z' || 'A' <= c <= 'Z' || '0' <= c <= '9' || c == '_'
  }

  /** A character that may start a C identifier. */
  predicate IsIdentStart(c: char) {
    'a' <= c <= 'z' || 'A' <= c <= 'Z' || c == '_'
  }

  predicate IsDigit(c: char) {
    '0' <= c <= '9'
  }

  /** str.isspace on the ASCII range: blank, tab to carriage return, and the four separators 0x1C-0x1F. */
  predicate IsSpace(c: char) {
    c == ' ' || '\t' <= c <= '\r' || '\U{1C}' <= c <= '\U{1F}'
  }

  function Lower(c: char): (r: char)
    ensures 'A' <= c <= 'Z' ==> 'a' <= r <= 'z' && r as int - c as int == 32
    ensures !('A' <= c <= 'Z') ==> r == c
  {
    if 'A' <= c <= 'Z' then (c as int + 32) as char else c
  }

  /** str.lower on ASCII text. */
  function ToLower(s: string): (r: string)
    ensures |r| == |s|
    ensures forall i {:trigger r[i]} :: 0 <= i < |s| ==> r[i] == Lower(s[i])
  {
    seq(|s|, i requires 0 <= i < |s| => Lower(s[i]))
  }

  lemma ToLowerConcat(a: string, b: string)
    ensures ToLower(a + b) == ToLower(a) + ToLower(b)
  {
    assert forall i :: 0 <= i < |a + b| ==> ToLower(a + b)[i] == (ToLower(a) + ToLower(b))[i];
  }

  /** Python's `sub in s`. */
  predicate Contains(s: string, sub: string)
    decreases |s|
  {
    sub <= s || (|s| > 0 && Contains(s[1..], sub))
  }

  /** Python's `s.endswith(suffix)`. */
  predicate EndsWith(s: string, suffix: string) {
    |suffix| <= |s| && s[|s| - |suffix|..] == suffix
  }

  /** `sub` occurs in `s` starting at index `i`. */
  predicate OccursAt(s: string, sub: string, i: int) {
    0 <= i <= |s| - |sub| && s[i..i + |sub|] == sub
  }

  /** Contains holds exactly when `sub` occurs at some position of `s`. */
  lemma {:induction false} ContainsAt(s: string, sub: string)
    ensures Contains(s, sub) <==> exists i :: OccursAt(s, sub, i)
    decreases |s|
  {
    if sub <= s {
      assert OccursAt(s, sub, 0);
    } else if |s| > 0 {
      ContainsAt(s[1..], sub);
      if Contains(s[1..], sub) {
        var i :| OccursAt(s[1..], sub, i);
        OccursInTail(s, sub, i + 1);
      }
      if exists i :: OccursAt(s, sub, i) {
        var i :| OccursAt(s, sub, i);
        assert i != 0;
        OccursInTail(s, sub, i);
      }
    }
  }

  /** An occurrence past the first character is an occurrence in the tail, one position earlier. */
  lemma OccursInTail(s: string, sub: string, i: int)
    requires 1 <= i <= |s|
    ensures OccursAt(s, sub, i) <==> OccursAt(s[1..], sub, i - 1)
  {
    if i <= |s| - |sub| {
      var a, b := s[1..][i - 1..i - 1 + |sub|], s[i..i + |sub|];
      assert forall k :: 0 <= k < |sub| ==> a[k] == b[k];
      assert a == b;
    }
  }

  /** Every suffix of a text, the text itself included, occurs in it. */
  lemma {:induction false} ContainsSuffix(a: string, b: string)
    ensures Contains(a + b, b)
    decreases |a|
  {
    if |a| == 0 {
      assert a + b == b;
    } else {
      assert (a + b)[1..] == a[1..] + b;
      ContainsSuffix(a[1..], b);
    }
  }

  /** str.find for one character: the first index of `c`, or -1. */
  function IndexOf(s: string, c: char): (r: int)
    ensures -1 <= r < |s|
    ensures r == -1 <==> c !in s
    ensures 0 <= r ==> s[r] == c && c !in s[..r]
  {
    if |s| == 0 then -1
    else if s[0] == c then 0
    else
      var k := IndexOf(s[1..], c);
      if k == -1 then -1 else k + 1
  }

  /** str.rfind for one character: the last index of `c`, or -1. */
  function LastIndexOf(s: string, c: char): (r: int)
    ensures -1 <= r < |s|
    ensures r == -1 <==> c !in s
    ensures 0 <= r ==> s[r] == c && c !in s[r + 1..]
  {
    if |s| == 0 then -1
    else if s[|s| - 1] == c then |s| - 1
    else
      var k := LastIndexOf(s[..|s| - 1], c);
      assert k >= 0 ==> s[k + 1..] == s[..|s| - 1][k + 1..] + [s[|s| - 1]];
      k
  }

  /** str.split(sep) for a one-character separator: the pieces between separators, empty ones kept. */
  function Split(s: string, sep: char): (r: seq<string>)
    ensures |r| >= 1
    ensures forall i :: 0 <= i < |r| ==> sep !in r[i]
    decreases |s|
  {
    var k := IndexOf(s, sep);
    if k == -1 then [s] else [s[..k]] + Split(s[k + 1..], sep)
  }

  /** sep.join(parts). */
  function Join(parts: seq<string>, sep: char): string
  {
    if |parts| == 0 then ""
    else if |parts| == 1 then parts[0]
    else parts[0] + [sep] + Join(parts[1..], sep)
  }

  /** Splitting and joining back on the same separator gives the text back. */
  lemma {:induction false} JoinSplit(s: string, sep: char)
    ensures Join(Split(s, sep), sep) == s
    decreases |s|
  {
    var k := IndexOf(s, sep);
    if k != -1 {
      JoinSplit(s[k + 1..], sep);
      assert Split(s, sep)[1..] == Split(s[k + 1..], sep);
      assert s == s[..k] + [sep] + s[k + 1..];
    }
  }

  /** Joining pieces free of the separator and splitting again gives the pieces back. */
  lemma {:induction false} SplitJoin(parts: seq<string>, sep: char)
    requires |parts| >= 1
    requires forall i :: 0 <= i < |parts| ==> sep !in parts[i]
    ensures Split(Join(parts, sep), sep) == parts
  {
    if |parts| > 1 {
      var p, rest := parts[0], Join(parts[1..], sep);
      var s := p + [sep] + rest;
      assert Join(parts, sep) == s;
      assert s[|p|] == sep;
      assert s[..|p|] == p;
      assert s[|p| + 1..] == rest;
      var k := IndexOf(s, sep);
      assert k == |p|;
      SplitJoin(parts[1..], sep);
    }
  }

  /** str.lstrip(): drops leading white space. */
  function LStrip(s: string): (r: string)
    ensures |r| <= |s| && r == s[|s| - |r|..]
    ensures |r| > 0 ==> !IsSpace(r[0])
    ensures forall i :: 0 <= i < |s| - |r| ==> IsSpace(s[i])
  {
    if |s| > 0 && IsSpace(s[0]) then
      var r := LStrip(s[1..]);
      assert s[1..][|s| - 1 - |r|..] == s[|s| - |r|..];
      assert forall i :: 1 <= i < |s| - |r| ==> s[i] == s[1..][i - 1];
      r
    else s
  }

  /** str.rstrip(): drops trailing white space. */
  function RStrip(s: string): (r: string)
    ensures |r| <= |s| && r == s[..|r|]
    ensures |r| > 0 ==> !IsSpace(r[|r| - 1])
    ensures forall i :: |r| <= i < |s| ==> IsSpace(s[i])
  {
    if |s| > 0 && IsSpace(s[|s| - 1]) then RStrip(s[..|s| - 1]) else s
  }

  /** str.strip(). */
  function Strip(s: string): string
  {
    RStrip(LStrip(s))
  }

  /** A text that neither starts nor ends with white space is its own strip. */
  lemma StripTrimmed(s: string)
    requires |s| > 0 && !IsSpace(s[0]) && !IsSpace(s[|s| - 1])
    ensures Strip(s) == s
  {
  }

  predicate AllDigits(s: string) {
    forall i :: 0 <= i < |s| ==> IsDigit(s[i])
  }

  function DigitChar(d: nat): (c: char)
    requires d < 10
    ensures IsDigit(c) && c as int - '0' as int == d
  {
    (d + '0' as int) as char
  }

  /** The number a string of decimal digits denotes. */
  function DigitsValue(s: string): nat
    requires AllDigits(s)
  {
    if |s| == 0 then 0 else DigitsValue(s[..|s| - 1]) * 10 + (s[|s| - 1] as int - '0' as int)
  }

  /** str(n) for a natural number: its shortest decimal numeral. */
  function NatToString(n: nat): (r: string)
    ensures |r| >= 1 && AllDigits(r)
    ensures |r| > 1 ==> r[0] != '0'
  {
    if n < 10 then [DigitChar(n)] else NatToString(n / 10) + [DigitChar(n % 10)]
  }

  /** str(i) for any integer. */
  function IntToString(i: int): (r: string)
    ensures |r| >= 1
  {
    if i < 0 then "-" + NatToString(-i) else NatToString(i)
  }

  /** int(s) for an optional sign and ASCII digits, surrounded by optional white space; None where Python raises ValueError. */
  function ParseInt(s: string): (r: Option<int>)
    ensures r.Some? ==> exists d :: |d| > 0 && AllDigits(d) && (r.value == DigitsValue(d) as int || r.value == -(DigitsValue(d) as int))
  {
    ParseNumeral(Strip(s))
  }

  /** The numeral part of int(s), once the white space is stripped. */
  function ParseNumeral(t: string): (r: Option<int>)
    ensures r.Some? ==> exists d :: |d| > 0 && AllDigits(d) && (r.value == DigitsValue(d) as int || r.value == -(DigitsValue(d) as int))
  {
    if |t| > 0 && (t[0] == '-' || t[0] == '+') then
      var ds := t[1..];
      if |ds| > 0 && AllDigits(ds) then
        var v: int := DigitsValue(ds);
        Some(if t[0] == '-' then -v else v)
      else None
    else if |t| > 0 && AllDigits(t) then Some(DigitsValue(t))
    else None
  }

  lemma {:induction false} DigitsValueOfNatToString(n: nat)
    ensures DigitsValue(NatToString(n)) == n
  {
    if n >= 10 {
      var s := NatToString(n);
      DigitsValueOfNatToString(n / 10);
      assert s[..|s| - 1] == NatToString(n / 10);
    }
  }

  /** int(str(i)) == i. */
  lemma ParseIntToString(i: int)
    ensures ParseInt(IntToString(i)) == Some(i)
  {
    if i < 0 {
      ParseNegative(i);
    } else {
      ParseDigits(i);
    }
  }

  /** The numeral of a natural number parses back to it. */
  lemma ParseDigits(n: nat)
    ensures ParseInt(IntToString(n)) == Some(n)
  {
    var d := NatToString(n);
    DigitsValueOfNatToString(n);
    StripTrimmed(d);
    assert Strip(d) == d && d[0] != '-' && d[0] != '+';
  }

  /** A negative number's numeral parses back to it. */
  lemma ParseNegative(i: int)
    requires i < 0
    ensures ParseInt(IntToString(i)) == Some(i)
  {
    var d := NatToString(-i);
    DigitsValueOfNatToString(-i);
    ParseMinusDigits(d, -i);
    assert IntToString(i) == "-" + d;
  }

  /** A minus sign and digits of value `v` parse to `-v`. */
  lemma ParseMinusDigits(d: string, v: nat)
    requires |d| > 0 && AllDigits(d) && DigitsValue(d) == v
    ensures ParseInt("-" + d) == Some(-(v as int))
  {
    SignedNumeral(d);
    ParseMinusNumeral("-" + d, d);
  }

  /** A text made of a minus sign and the digits `d`, with no white space around it, parses to minus their value. */
  lemma ParseMinusNumeral(t: string, d: string)
    requires |t| > 1 && t[0] == '-' && t[1..] == d && AllDigits(d) && !IsSpace(t[|t| - 1])
    ensures ParseInt(t) == Some(-(DigitsValue(d) as int))
  {
    StripTrimmed(t);
    NumeralMinus(t, d);
  }

  /** The sign and the digits of a negative numeral. */
  lemma SignedNumeral(d: string)
    requires |d| > 0 && AllDigits(d)
    ensures var s := "-" + d; |s| > 1 && s[0] == '-' && s[1..] == d && !IsSpace(s[0]) && !IsSpace(s[|s| - 1])
  {
    var s := "-" + d;
    assert s[1..] == d;
    assert s[|s| - 1] == d[|d| - 1];
  }

  /** A stripped minus sign followed by the digits `d` is the numeral of minus their value. */
  lemma NumeralMinus(t: string, d: string)
    requires |t| > 1 && t[0] == '-' && t[1..] == d && AllDigits(d)
    ensures ParseNumeral(t) == Some(-(DigitsValue(d) as int))
  {
  }
}
