/** String primitives of the Java and JavaScript standard libraries that the
    backend and the dashboard rely on, stated over `seq<char>`. */
module Text {
  import opened Wrappers

  /** Characters removed by Java's `String.trim`: every code point up to U+0020. */
  predicate IsTrimmed(c: char) { c <= ' ' }

  /** Java's `Character.isWhitespace`, on which `String.isBlank` is built. */
  predicate IsJavaWhitespace(c: char) {
    c == ' ' || c == '\t' || c == '\n' || c == '\U{000B}' || c == '\U{000C}' || c == '\r'
    || ('\U{001C}' <= c <= '\U{001F}')
    || c == '\U{1680}' || ('\U{2000}' <= c <= '\U{2006}') || ('\U{2008}' <= c <= '\U{200A}')
    || c == '\U{2028}' || c == '\U{2029}' || c == '\U{205F}' || c == '\U{3000}'
  }

  /** Java's `String.isBlank`. */
  predicate IsBlank(s: string) {
    forall i :: 0 <= i < |s| ==> IsJavaWhitespace(s[i])
  }

  /** Number of leading characters that `trim` removes. */
  function LeadingTrimmed(s: string): (k: nat)
    ensures k <= |s|
    ensures forall i :: 0 <= i < k ==> IsTrimmed(s[i])
    ensures k == |s| || !IsTrimmed(s[k])
  {
    if |s| == 0 || !IsTrimmed(s[0]) then 0 else 1 + LeadingTrimmed(s[1..])
  }

  /** Number of trailing characters that `trim` removes. */
  function TrailingTrimmed(s: string): (k: nat)
    ensures k <= |s|
    ensures forall i :: |s| - k <= i < |s| ==> IsTrimmed(s[i])
    ensures k == |s| || !IsTrimmed(s[|s| - 1 - k])
  {
    if |s| == 0 || !IsTrimmed(s[|s| - 1]) then 0 else 1 + TrailingTrimmed(s[..|s| - 1])
  }

  /** Java's `String.trim`. */
  function Trim(s: string): (r: string)
    ensures |r| <= |s|
    ensures r == [] || (!IsTrimmed(r[0]) && !IsTrimmed(r[|r| - 1]))
  {
    var t := s[LeadingTrimmed(s)..];
    t[..|t| - TrailingTrimmed(t)]
  }

  /** A text without trimmable ends is its own trim. */
  lemma TrimNoop(s: string)
    requires s == [] || (!IsTrimmed(s[0]) && !IsTrimmed(s[|s| - 1]))
    ensures Trim(s) == s
  {
    assert LeadingTrimmed(s) == 0;
    assert TrailingTrimmed(s) == 0;
  }

  /** The trimmed text sits inside the original with only trimmable characters around it. */
  lemma TrimIsInfix(s: string)
    ensures exists a, b :: 0 <= a <= b <= |s| && Trim(s) == s[a..b]
                           && (forall i :: 0 <= i < a ==> IsTrimmed(s[i]))
                           && (forall i :: b <= i < |s| ==> IsTrimmed(s[i]))
  {
    var a := LeadingTrimmed(s);
    var t := s[a..];
    var b := a + |t| - TrailingTrimmed(t);
    assert Trim(s) == s[a..b];
    assert forall i :: b <= i < |s| ==> s[i] == t[i - a];
  }

  /** Characters JavaScript's `String.prototype.trim` removes. */
  predicate IsJsWhitespace(c: char) {
    c == '\t' || c == '\n' || c == '\U{000B}' || c == '\U{000C}' || c == '\r' || c == ' '
    || c == '\U{00A0}' || c == '\U{1680}' || ('\U{2000}' <= c <= '\U{200A}')
    || c == '\U{2028}' || c == '\U{2029}' || c == '\U{202F}' || c == '\U{205F}' || c == '\U{3000}' || c == '\U{FEFF}'
  }

  /** JavaScript's `trim`. */
  function JsTrim(s: string): (r: string)
    ensures |r| <= |s|
    ensures r == [] || (!IsJsWhitespace(r[0]) && !IsJsWhitespace(r[|r| - 1]))
  {
    if |s| > 0 && IsJsWhitespace(s[0]) then JsTrim(s[1..])
    else if |s| > 0 && IsJsWhitespace(s[|s| - 1]) then JsTrim(s[..|s| - 1])
    else s
  }

  /** A text without JavaScript whitespace at either end is its own trim;
      in particular trimming twice is trimming once. */
  lemma JsTrimNoop(s: string)
    requires s == [] || (!IsJsWhitespace(s[0]) && !IsJsWhitespace(s[|s| - 1]))
    ensures JsTrim(s) == s
    ensures JsTrim(JsTrim(s)) == JsTrim(s)
  {
  }

  /** r is s[a..b] and everything of s outside it is JavaScript whitespace. */
  predicate JsInfix(s: string, r: string, a: nat, b: nat) {
    a <= b <= |s| && r == s[a..b]
    && (forall i :: 0 <= i < a ==> IsJsWhitespace(s[i]))
    && (forall i :: b <= i < |s| ==> IsJsWhitespace(s[i]))
  }

  lemma JsInfixFront(s: string, r: string, a: nat, b: nat)
    requires |s| > 0 && IsJsWhitespace(s[0]) && JsInfix(s[1..], r, a, b)
    ensures JsInfix(s, r, a + 1, b + 1)
  {
    assert forall i :: 1 <= i < |s| ==> s[i] == s[1..][i - 1];
  }

  lemma JsInfixBack(s: string, r: string, a: nat, b: nat)
    requires |s| > 0 && IsJsWhitespace(s[|s| - 1]) && JsInfix(s[..|s| - 1], r, a, b)
    ensures JsInfix(s, r, a, b)
  {
    assert forall i :: 0 <= i < |s| - 1 ==> s[i] == s[..|s| - 1][i];
  }

  /** The trimmed text sits inside the original with only JavaScript
      whitespace around it. */
  lemma {:induction false} JsTrimIsInfix(s: string)
    ensures exists a, b :: JsInfix(s, JsTrim(s), a, b)
    decreases |s|
  {
    if |s| > 0 && IsJsWhitespace(s[0]) {
      JsTrimIsInfix(s[1..]);
      var a, b :| JsInfix(s[1..], JsTrim(s[1..]), a, b);
      JsInfixFront(s, JsTrim(s), a, b);
    } else if |s| > 0 && IsJsWhitespace(s[|s| - 1]) {
      JsTrimIsInfix(s[..|s| - 1]);
      var a, b :| JsInfix(s[..|s| - 1], JsTrim(s[..|s| - 1]), a, b);
      JsInfixBack(s, JsTrim(s), a, b);
    } else {
      assert JsInfix(s, JsTrim(s), 0, |s|);
    }
  }

  function LowerChar(c: char): char { if 'A' <= c <= 'Z' then (c as int + 32) as char else c }
  function UpperChar(c: char): char { if 'a' <= c <= 'z' then (c as int - 32) as char else c }

  /** `toLowerCase`, on the ASCII letters. */
  function ToLower(s: string): (r: string)
    ensures |r| == |s| && forall i :: 0 <= i < |s| ==> r[i] == LowerChar(s[i])
  {
    seq(|s|, i requires 0 <= i < |s| => LowerChar(s[i]))
  }

  /** `toUpperCase`, on the ASCII letters. */
  function ToUpper(s: string): (r: string)
    ensures |r| == |s| && forall i :: 0 <= i < |s| ==> r[i] == UpperChar(s[i])
  {
    seq(|s|, i requires 0 <= i < |s| => UpperChar(s[i]))
  }

  /** Index of the first occurrence of `c`, or -1 (`indexOf`). */
  function IndexOf(s: string, c: char): (i: int)
    ensures -1 <= i < |s|
    ensures i == -1 <==> c !in s
    ensures 0 <= i ==> s[i] == c && c !in s[..i]
  {
    if |s| == 0 then -1
    else if s[0] == c then 0
    else
      var j := IndexOf(s[1..], c);
      assert s == [s[0]] + s[1..];
      if j < 0 then -1
      else assert s[..j + 1] == [s[0]] + s[1..][..j]; j + 1
  }

  /** The text before the first `c`, or all of `s` (`s.split(c)[0]`). */
  function BeforeFirst(s: string, c: char): (r: string)
    ensures c !in r
    ensures c in s ==> r + [c] <= s
    ensures c !in s ==> r == s
  {
    var i := IndexOf(s, c);
    if i < 0 then s else assert s[..i + 1] == s[..i] + [c]; s[..i]
  }

  predicate StartsWith(s: string, prefix: string) { prefix <= s }

  /** Splits at every occurrence of `sep`, keeping empty pieces (JavaScript `split`). */
  function SplitAll(s: string, sep: char): (r: seq<string>)
    ensures |r| >= 1
    ensures forall k :: 0 <= k < |r| ==> sep !in r[k]
    decreases |s|
  {
    var i := IndexOf(s, sep);
    if i < 0 then [s] else [s[..i]] + SplitAll(s[i + 1..], sep)
  }

  /** Joins pieces with `sep` between them. */
  function Join(parts: seq<string>, sep: char): string
    requires |parts| >= 1
  {
    if |parts| == 1 then parts[0] else parts[0] + [sep] + Join(parts[1..], sep)
  }

  lemma JoinCons(head: string, rest: seq<string>, sep: char)
    requires |rest| >= 1
    ensures Join([head] + rest, sep) == head + [sep] + Join(rest, sep)
  {
    assert ([head] + rest)[1..] == rest;
  }

  /** Splitting loses nothing: joining the pieces gives the text back. */
  lemma {:induction false} SplitAllJoin(s: string, sep: char)
    ensures Join(SplitAll(s, sep), sep) == s
    decreases |s|
  {
    var i := IndexOf(s, sep);
    if i >= 0 {
      var rest := SplitAll(s[i + 1..], sep);
      SplitAllJoin(s[i + 1..], sep);
      JoinCons(s[..i], rest, sep);
      assert s == s[..i] + [sep] + s[i + 1..];
    }
  }

  /** The first separator of `p + [sep] + t` is the one after p when p has none. */
  lemma IndexOfAfter(p: string, sep: char, t: string)
    requires sep !in p
    ensures IndexOf(p + [sep] + t, sep) == |p|
  {
    var s := p + [sep] + t;
    var i := IndexOf(s, sep);
    assert s[..|p|] == p && s[|p|] == sep;
    assert forall k :: 0 <= k < |p| ==> s[k] == p[k];
  }

  /** A separator after a piece without one splits the piece off. */
  lemma SplitAllAfter(p: string, sep: char, t: string)
    requires sep !in p
    ensures SplitAll(p + [sep] + t, sep) == [p] + SplitAll(t, sep)
  {
    var s := p + [sep] + t;
    IndexOfAfter(p, sep, t);
    assert s[..|p|] == p;
    assert s[|p| + 1..] == t;
  }

  /** Splitting undoes joining when no piece holds the separator. */
  lemma {:induction false} JoinSplitAll(parts: seq<string>, sep: char)
    requires |parts| >= 1 && forall k :: 0 <= k < |parts| ==> sep !in parts[k]
    ensures SplitAll(Join(parts, sep), sep) == parts
    decreases |parts|
  {
    if |parts| > 1 {
      var rest := parts[1..];
      JoinSplitAll(rest, sep);
      SplitAllAfter(parts[0], sep, Join(rest, sep));
      assert parts == [parts[0]] + rest;
    }
  }

  /** A joined text starts with its first piece and ends with its last; with
      two pieces or more it holds the separator. */
  lemma {:induction false} JoinEnds(parts: seq<string>, sep: char)
    requires |parts| >= 1
    ensures parts[0] <= Join(parts, sep)
    ensures var j := Join(parts, sep); var last := parts[|parts| - 1];
            |last| <= |j| && j[|j| - |last|..] == last
    ensures |parts| >= 2 ==> sep in Join(parts, sep)
    decreases |parts|
  {
    if |parts| > 1 {
      var t := Join(parts[1..], sep);
      JoinEnds(parts[1..], sep);
      var j := parts[0] + [sep] + t;
      assert j[|parts[0]|] == sep;
      assert j[|j| - |t|..] == t;
    }
  }

  function DropTrailingEmpty(parts: seq<string>): (r: seq<string>)
    ensures r <= parts
    ensures r == [] || r[|r| - 1] != []
    ensures forall k :: |r| <= k < |parts| ==> parts[k] == []
  {
    if |parts| == 0 || parts[|parts| - 1] != [] then parts
    else DropTrailingEmpty(parts[..|parts| - 1])
  }

  /** Java's `String.split` on a one-character literal: trailing empty pieces
      are removed, except that a text without the separator is returned whole. */
  function JavaSplit(s: string, sep: char): seq<string> {
    if sep !in s then [s] else DropTrailingEmpty(SplitAll(s, sep))
  }

  /** Java's split keeps the pieces of a full split, less the trailing
      empty ones. */
  lemma JavaSplitPieces(s: string, sep: char)
    ensures sep !in s ==> JavaSplit(s, sep) == [s]
    ensures JavaSplit(s, sep) <= SplitAll(s, sep)
    ensures forall k :: |JavaSplit(s, sep)| <= k < |SplitAll(s, sep)| ==> SplitAll(s, sep)[k] == []
  {
    if sep !in s {
      assert IndexOf(s, sep) == -1;
    }
  }

  predicate IsDigit(c: char) { '0' <= c <= '9' }

  /** Value of a non-empty run of ASCII digits. */
  function DigitsValue(s: string): (r: Option<nat>)
    ensures r.Some? <==> (|s| > 0 && forall i :: 0 <= i < |s| ==> IsDigit(s[i]))
  {
    if |s| == 0 || !IsDigit(s[|s| - 1]) then None
    else if |s| == 1 then Some(s[0] as int - '0' as int)
    else match DigitsValue(s[..|s| - 1])
      case None => None
      case Some(v) => Some(10 * v + (s[|s| - 1] as int - '0' as int))
  }

  /** `Integer.parseInt` / `Long.parseLong`: an optional sign, then digits, in [lo, hi];
      None where Java throws NumberFormatException. */
  function ParseInteger(s: string, lo: int, hi: int): (r: Option<int>)
    ensures r.Some? ==> lo <= r.value <= hi
  {
    var neg := |s| > 0 && s[0] == '-';
    var body := if |s| > 0 && (s[0] == '-' || s[0] == '+') then s[1..] else s;
    match DigitsValue(body)
    case None => None
    case Some(v) =>
      var x: int := if neg then -(v as int) else v;
      if lo <= x <= hi then Some(x) else None
  }

  const INT_MIN := -0x8000_0000
  const INT_MAX := 0x7FFF_FFFF
  const LONG_MIN := -0x8000_0000_0000_0000
  const LONG_MAX := 0x7FFF_FFFF_FFFF_FFFF

  /** Decimal digits of a natural number (`String.valueOf`). */
  function NatToString(n: nat): (r: string)
    ensures |r| >= 1 && forall i :: 0 <= i < |r| ==> IsDigit(r[i])
  {
    var d := [(n % 10 + '0' as int) as char];
    if n < 10 then d else NatToString(n / 10) + d
  }

  /** Printing and parsing a natural number are inverse. */
  lemma {:induction false} DigitsOfNatToString(n: nat)
    ensures DigitsValue(NatToString(n)) == Some(n)
  {
    if n >= 10 {
      DigitsOfNatToString(n / 10);
      var s := NatToString(n);
      assert s[..|s| - 1] == NatToString(n / 10);
    }
  }

  /** A number printed in decimal, with or without a minus sign, parses
      back to itself when it lies in the range. */
  lemma ParseIntegerOfDigits(n: nat, lo: int, hi: int)
    ensures lo <= n <= hi ==> ParseInteger(NatToString(n), lo, hi) == Some(n)
    ensures lo <= -(n as int) <= hi ==> ParseInteger("-" + NatToString(n), lo, hi) == Some(-(n as int))
  {
    DigitsOfNatToString(n);
    if lo <= n <= hi {
      ParseUnsigned(NatToString(n), n, lo, hi);
    }
    if lo <= -(n as int) <= hi {
      ParseNegative(NatToString(n), n, lo, hi);
    }
  }

  /** A run of digits with value n in [lo, hi] parses to n. */
  lemma ParseUnsigned(d: string, n: nat, lo: int, hi: int)
    requires DigitsValue(d) == Some(n) && lo <= n <= hi
    ensures ParseInteger(d, lo, hi) == Some(n)
  {
    assert IsDigit(d[0]);
  }

  /** A minus sign before a run of digits with value n, with -n in [lo, hi], parses to -n. */
  lemma ParseNegative(d: string, n: nat, lo: int, hi: int)
    requires DigitsValue(d) == Some(n) && lo <= -(n as int) <= hi
    ensures ParseInteger("-" + d, lo, hi) == Some(-(n as int))
  {
    var s := "-" + d;
    assert s[0] == '-' && s[1..] == d;
  }

}
