/** String primitives the scraper relies on: whitespace classes, strip/trim, split/join,
    ASCII lower-casing, decimal rendering and index search. */
module Text {

  /** Python's `str.isspace()`, which is also what `\s` matches in a `str` pattern. */
  predicate PySpace(c: char) {
    c == ' ' || c == '\t' || c == '\n' || c == '\r' || c == '\U{B}' || c == '\U{C}'
    || ('\U{1C}' <= c <= '\U{1F}') || c == '\U{85}' || c == '\U{A0}' || c == '\U{1680}'
    || ('\U{2000}' <= c <= '\U{200A}') || c == '\U{2028}' || c == '\U{2029}'
    || c == '\U{202F}' || c == '\U{205F}' || c == '\U{3000}'
  }

  /** The characters JavaScript's `String.prototype.trim` removes (WhiteSpace and LineTerminator). */
  predicate JsSpace(c: char) {
    c == ' ' || c == '\t' || c == '\n' || c == '\r' || c == '\U{B}' || c == '\U{C}'
    || c == '\U{A0}' || c == '\U{FEFF}' || c == '\U{1680}'
    || ('\U{2000}' <= c <= '\U{200A}') || c == '\U{2028}' || c == '\U{2029}'
    || c == '\U{202F}' || c == '\U{205F}' || c == '\U{3000}'
  }

  /** The line boundaries of Python's `str.splitlines()`. */
  predicate LineBreak(c: char) {
    c == '\n' || c == '\r' || c == '\U{B}' || c == '\U{C}' || c == '\U{1C}' || c == '\U{1D}'
    || c == '\U{1E}' || c == '\U{85}' || c == '\U{2028}' || c == '\U{2029}'
  }

  /** Neither end of `s` is in the class `drop`. */
  predicate Stripped(s: string, drop: char -> bool) {
    s == [] || (!drop(s[0]) && !drop(s[|s| - 1]))
  }

  /** The number of leading characters of class `drop`. */
  function LeadCount(s: string, drop: char -> bool): (n: nat)
    ensures n <= |s| && (n == |s| || !drop(s[n]))
    ensures forall i :: 0 <= i < n ==> drop(s[i])
    decreases |s|
  {
    if |s| > 0 && drop(s[0]) then 1 + LeadCount(s[1..], drop) else 0
  }

  /** The number of trailing characters of class `drop`. */
  function TrailCount(s: string, drop: char -> bool): (n: nat)
    ensures n <= |s| && (n == |s| || !drop(s[|s| - n - 1]))
    ensures forall i :: |s| - n <= i < |s| ==> drop(s[i])
    decreases |s|
  {
    if |s| > 0 && drop(s[|s| - 1]) then 1 + TrailCount(s[..|s| - 1], drop) else 0
  }

  /** Removes the leading characters of class `drop` (`str.lstrip(chars)`). */
  function TrimLeft(s: string, drop: char -> bool): string {
    s[LeadCount(s, drop)..]
  }

  /** Removes the trailing characters of class `drop` (`str.rstrip(chars)`). */
  function TrimRight(s: string, drop: char -> bool): string {
    s[..|s| - TrailCount(s, drop)]
  }

  /** Removes both ends (`str.strip(chars)`): neither end of the result is of class `drop`;
      `TrimSlice` says which slice of `s` it is. */
  function Trim(s: string, drop: char -> bool): (r: string)
    ensures Stripped(r, drop) && |r| <= |s|
  {
    TrimRight(TrimLeft(s, drop), drop)
  }

  /** The trimmed string is the slice of `s` between its leading and its trailing run of
      characters of class `drop`. */
  lemma TrimSlice(s: string, drop: char -> bool)
    ensures var a := LeadCount(s, drop); var r := Trim(s, drop);
              a + |r| <= |s| && r == s[a..a + |r|]
              && (forall i :: a + |r| <= i < |s| ==> drop(s[i]))
  {
    var a := LeadCount(s, drop);
    var l := s[a..];
    var t := TrailCount(l, drop);
    assert Trim(s, drop) == l[..|l| - t];
    forall i | a + |l| - t <= i < |s| ensures drop(s[i]) {
      assert s[i] == l[i - a];
    }
  }

  /** Python `s.strip()`. */
  function Strip(s: string): string { Trim(s, PySpace) }

  /** JavaScript `s.trim()`. */
  function JsTrim(s: string): string { Trim(s, JsSpace) }

  /** A character outside the Basic Multilingual Plane, stored by JavaScript as a
      surrogate pair. */
  predicate Astral(c: char) { c > '\U{FFFF}' }

  /** JavaScript's `s.length`: the number of UTF-16 code units, so an astral character
      counts twice. */
  function JsLength(s: string): (n: nat)
    ensures |s| <= n <= 2 * |s|
    decreases |s|
  {
    if s == [] then 0 else (if Astral(s[0]) then 2 else 1) + JsLength(s[1..])
  }

  /** The JavaScript length equals the number of characters exactly when no character
      is astral. */
  lemma {:induction false} JsLengthPlain(s: string)
    ensures JsLength(s) == |s| <==> forall i :: 0 <= i < |s| ==> !Astral(s[i])
    decreases |s|
  {
    if s != [] {
      JsLengthPlain(s[1..]);
      assert forall i :: 1 <= i < |s| ==> s[i] == s[1..][i - 1];
    }
  }

  /** The JavaScript length of a concatenation is the sum of the lengths. */
  lemma {:induction false} JsLengthConcat(s: string, t: string)
    ensures JsLength(s + t) == JsLength(s) + JsLength(t)
    decreases |s|
  {
    if s == [] {
      assert s + t == t;
    } else {
      JsLengthConcat(s[1..], t);
      assert (s + t)[1..] == s[1..] + t;
    }
  }

  /** Trimming a string whose ends are already kept leaves it unchanged. */
  lemma TrimStripped(s: string, drop: char -> bool)
    requires Stripped(s, drop)
    ensures Trim(s, drop) == s
  {
  }

  /** Trimming keeps characters: if no character of `s` is of class `bad`, none of the
      result is. */
  lemma TrimKeeps(s: string, drop: char -> bool, bad: char -> bool)
    requires forall k :: 0 <= k < |s| ==> !bad(s[k])
    ensures forall k :: 0 <= k < |Trim(s, drop)| ==> !bad(Trim(s, drop)[k])
  {
    TrimSlice(s, drop);
    var r := Trim(s, drop);
    var a := LeadCount(s, drop);
    assert forall k :: 0 <= k < |r| ==> r[k] == s[a + k];
  }

  /** The characters of `s` of class `keep`, in order. */
  function Filter(s: string, keep: char -> bool): string
    decreases |s|
  {
    if s == [] then [] else (if keep(s[0]) then [s[0]] else []) + Filter(s[1..], keep)
  }

  lemma {:induction false} FilterConcat(s: string, t: string, keep: char -> bool)
    ensures Filter(s + t, keep) == Filter(s, keep) + Filter(t, keep)
    decreases |s|
  {
    if s == [] {
      assert s + t == t;
    } else {
      FilterConcat(s[1..], t, keep);
      var head := if keep(s[0]) then [s[0]] else [];
      assert (s + t)[0] == s[0] && (s + t)[1..] == s[1..] + t;
      assert Filter(s + t, keep) == head + Filter(s[1..] + t, keep);
      assert Filter(s, keep) == head + Filter(s[1..], keep);
    }
  }

  lemma {:induction false} FilterNone(s: string, keep: char -> bool)
    requires forall i :: 0 <= i < |s| ==> !keep(s[i])
    ensures Filter(s, keep) == []
    decreases |s|
  {
    if s != [] { FilterNone(s[1..], keep); }
  }

  /** Dropping a prefix of characters that are never kept loses none of the kept ones. */
  lemma FilterDropPrefix(s: string, a: nat, keep: char -> bool)
    requires a <= |s| && forall i :: 0 <= i < a ==> !keep(s[i])
    ensures Filter(s[a..], keep) == Filter(s, keep)
  {
    assert s == s[..a] + s[a..];
    FilterConcat(s[..a], s[a..], keep);
    FilterNone(s[..a], keep);
  }

  /** Dropping a suffix of characters that are never kept loses none of the kept ones. */
  lemma FilterDropSuffix(s: string, b: nat, keep: char -> bool)
    requires b <= |s| && forall i :: b <= i < |s| ==> !keep(s[i])
    ensures Filter(s[..b], keep) == Filter(s, keep)
  {
    assert s == s[..b] + s[b..];
    FilterConcat(s[..b], s[b..], keep);
    assert forall i :: 0 <= i < |s| - b ==> s[b..][i] == s[b + i];
    FilterNone(s[b..], keep);
  }

  /** Trimming characters that are never kept loses none of the kept ones. */
  lemma TrimFilter(s: string, drop: char -> bool, keep: char -> bool)
    requires forall c :: drop(c) ==> !keep(c)
    ensures Filter(Trim(s, drop), keep) == Filter(s, keep)
  {
    TrimSlice(s, drop);
    var r := Trim(s, drop);
    var a := LeadCount(s, drop);
    FilterDropPrefix(s, a, keep);
    var t := s[a..];
    assert r == t[..|r|];
    assert forall i :: |r| <= i < |t| ==> t[i] == s[a + i];
    FilterDropSuffix(t, |r|, keep);
  }

  function Concat(parts: seq<string>): string {
    if parts == [] then "" else parts[0] + Concat(parts[1..])
  }

  lemma ConcatAppend(a: seq<string>, b: seq<string>)
    ensures Concat(a + b) == Concat(a) + Concat(b)
  {
    if a != [] {
      assert (a + b)[0] == a[0];
      assert (a + b)[1..] == a[1..] + b;
      ConcatAppend(a[1..], b);
    } else {
      assert a + b == b;
    }
  }

  /** The non-empty strings of `s`, in order (`[x for x in s if x]`). */
  function NonEmpty(s: seq<string>): (r: seq<string>)
    ensures forall i :: 0 <= i < |r| ==> r[i] != "" && r[i] in s
    decreases |s|
  {
    if s == [] then []
    else
      var rest := NonEmpty(s[1..]);
      assert forall x :: x in s[1..] ==> x in s;
      (if s[0] != "" then [s[0]] else []) + rest
  }

  lemma {:induction false} NonEmptyAppend(a: seq<string>, b: seq<string>)
    ensures NonEmpty(a + b) == NonEmpty(a) + NonEmpty(b)
    decreases |a|
  {
    if a == [] {
      assert a + b == b;
    } else {
      NonEmptyAppend(a[1..], b);
      assert (a + b)[1..] == a[1..] + b;
    }
  }

  /** The longest prefix of `s` whose characters are all of class `ok`. */
  function TakeWhile(s: string, ok: char -> bool): (r: string)
    ensures r <= s
    ensures forall k :: 0 <= k < |r| ==> ok(r[k])
    ensures |r| == |s| || !ok(s[|r|])
    decreases |s|
  {
    if s != [] && ok(s[0]) then [s[0]] + TakeWhile(s[1..], ok) else []
  }

  /** Python `sep.join(parts)`. */
  function Join(parts: seq<string>, sep: string): string {
    if |parts| == 0 then ""
    else if |parts| == 1 then parts[0]
    else parts[0] + sep + Join(parts[1..], sep)
  }

  /** Python `s.split(sep)` for a non-empty separator: the leftmost occurrences of `sep`
      cut `s` into pieces; there is always at least one piece. */
  function Split(s: string, sep: string): (r: seq<string>)
    requires |sep| > 0
    ensures |r| >= 1
    decreases |s|
  {
    if |s| < |sep| then [s]
    else if s[..|sep|] == sep then [""] + Split(s[|sep|..], sep)
    else
      var rest := Split(s[1..], sep);
      [[s[0]] + rest[0]] + rest[1..]
  }

  /** Joining the pieces of a split with the same separator gives the string back. */
  lemma {:induction false} JoinSplit(s: string, sep: string)
    requires |sep| > 0
    ensures Join(Split(s, sep), sep) == s
    decreases |s|
  {
    if |s| < |sep| {
    } else if s[..|sep|] == sep {
      JoinSplit(s[|sep|..], sep);
      JoinEmptyHead(Split(s[|sep|..], sep), sep);
      assert s == sep + s[|sep|..];
    } else {
      JoinSplit(s[1..], sep);
      JoinCons(s[0], Split(s[1..], sep), sep);
      assert s == [s[0]] + s[1..];
    }
  }

  /** An empty first piece contributes only its separator. */
  lemma JoinEmptyHead(rest: seq<string>, sep: string)
    requires |rest| >= 1
    ensures Join([""] + rest, sep) == sep + Join(rest, sep)
  {
    assert ([""] + rest)[1..] == rest;
  }

  /** A character put in front of the first piece comes first in the joined string. */
  lemma JoinCons(c: char, rest: seq<string>, sep: string)
    requires |rest| >= 1
    ensures Join([[c] + rest[0]] + rest[1..], sep) == [c] + Join(rest, sep)
  {
    var r := [[c] + rest[0]] + rest[1..];
    if |rest| > 1 {
      assert r[1..] == rest[1..];
    }
  }

  /** A string free of the one-character separator `c` is a single piece. */
  lemma {:induction false} SplitFree(p: string, c: char)
    requires c !in p
    ensures Split(p, [c]) == [p]
    decreases |p|
  {
    if |p| >= 1 {
      assert p[..1] == [p[0]];
      SplitFree(p[1..], c);
      assert [p[0]] + p[1..] == p;
    }
  }

  /** The first occurrence of a one-character separator ends the first piece. */
  lemma {:induction false} SplitCut(p: string, c: char, t: string)
    requires c !in p
    ensures Split(p + [c] + t, [c]) == [p] + Split(t, [c])
    decreases |p|
  {
    var s := p + [c] + t;
    if p == [] {
      assert s[..1] == [c];
      assert s[1..] == t;
    } else {
      assert s[..1] == [p[0]];
      assert s[1..] == p[1..] + [c] + t;
      SplitCut(p[1..], c, t);
      assert [p[0]] + p[1..] == p;
    }
  }

  /** Splitting a join on a one-character separator that no part contains gives the parts back. */
  lemma {:induction false} SplitJoin(parts: seq<string>, c: char)
    requires |parts| >= 1
    requires forall i :: 0 <= i < |parts| ==> c !in parts[i]
    ensures Split(Join(parts, [c]), [c]) == parts
    decreases |parts|
  {
    if |parts| == 1 {
      SplitFree(parts[0], c);
    } else {
      SplitJoin(parts[1..], c);
      SplitCut(parts[0], c, Join(parts[1..], [c]));
      assert [parts[0]] + parts[1..] == parts;
    }
  }

  /** Splitting keeps characters: if no character of `s` is of class `bad`, no piece
      holds one. */
  lemma {:induction false} SplitKeeps(s: string, sep: string, bad: char -> bool)
    requires |sep| > 0
    requires forall k :: 0 <= k < |s| ==> !bad(s[k])
    ensures forall i, k :: 0 <= i < |Split(s, sep)| && 0 <= k < |Split(s, sep)[i]| ==> !bad(Split(s, sep)[i][k])
    decreases |s|
  {
    if |s| < |sep| {
    } else if s[..|sep|] == sep {
      var tail := s[|sep|..];
      assert forall k :: 0 <= k < |tail| ==> tail[k] == s[k + |sep|];
      SplitKeeps(tail, sep, bad);
      var rest := Split(tail, sep);
      var r := [""] + rest;
      assert Split(s, sep) == r;
      forall i, k | 0 <= i < |r| && 0 <= k < |r[i]| ensures !bad(r[i][k]) {
        assert r[i] == rest[i - 1];
        assert !bad(rest[i - 1][k]);
      }
    } else {
      var tail := s[1..];
      assert forall k :: 0 <= k < |tail| ==> tail[k] == s[k + 1];
      SplitKeeps(tail, sep, bad);
      var rest := Split(tail, sep);
      var r := [[s[0]] + rest[0]] + rest[1..];
      assert Split(s, sep) == r;
      forall i, k | 0 <= i < |r| && 0 <= k < |r[i]| ensures !bad(r[i][k]) {
        if i == 0 {
          if k > 0 { assert r[0][k] == rest[0][k - 1]; assert !bad(rest[0][k - 1]); }
        } else {
          assert r[i] == rest[i];
          assert !bad(rest[i][k]);
        }
      }
    }
  }

  predicate NotBreak(c: char) { !LineBreak(c) }

  /** Python `s.splitlines()`: the lines of `s` without their line boundaries, where
      `\r\n` is one boundary and a boundary at the very end opens no further line, so
      the empty string has no lines. */
  function SplitLines(s: string): (r: seq<string>)
    ensures r == [] <==> s == []
    ensures forall i, k :: 0 <= i < |r| && 0 <= k < |r[i]| ==> !LineBreak(r[i][k])
    decreases |s|
  {
    if s == [] then []
    else
      var n := LeadCount(s, NotBreak);
      if n == |s| then [s]
      else
        var skip := if s[n] == '\r' && n + 1 < |s| && s[n + 1] == '\n' then 2 else 1;
        var r := [s[..n]] + SplitLines(s[n + skip..]);
        assert forall i :: 1 <= i < |r| ==> r[i] == SplitLines(s[n + skip..])[i - 1];
        r
  }

  /** The line feed is the only line boundary in `s`. */
  predicate FeedOnly(s: string) {
    forall k :: 0 <= k < |s| && LineBreak(s[k]) ==> s[k] == '\n'
  }

  lemma FeedOnlySuffix(s: string, j: nat)
    requires FeedOnly(s) && j <= |s|
    ensures FeedOnly(s[j..])
  {
    assert forall k :: 0 <= k < |s[j..]| ==> s[j..][k] == s[j + k];
  }

  /** When the line feed is the only boundary in `s`, joining its lines with line feeds
      gives `s` back, less the final line feed that `splitlines` drops. */
  lemma {:induction false} SplitLinesJoin(s: string)
    requires FeedOnly(s)
    ensures Join(SplitLines(s), "\n") + FinalFeed(s) == s
    decreases |s|
  {
    if s != [] {
      var n := LeadCount(s, NotBreak);
      if n == |s| {
        assert SplitLines(s) == [s];
        assert NotBreak(s[|s| - 1]);
      } else {
        var t := s[n + 1..];
        SplitLinesStep(s, n);
        FeedOnlySuffix(s, n + 1);
        SplitLinesJoin(t);
        SplitAtFeed(s, n);
        if t != [] {
          JoinHead(s[..n], SplitLines(t), "\n");
          GlueLines(s[..n], Join(SplitLines(t), "\n"), FinalFeed(t), t);
        }
      }
    }
  }

  /** "\n" when `s` ends with a line feed, else "". */
  function FinalFeed(s: string): string {
    if s != [] && s[|s| - 1] == '\n' then "\n" else ""
  }

  /** `s` is the text before its line feed at `n`, the feed, and the text after it. */
  lemma SplitAtFeed(s: string, n: nat)
    requires n < |s| && s[n] == '\n'
    ensures s == s[..n] + "\n" + s[n + 1..]
    ensures FinalFeed(s) == if n + 1 == |s| then "\n" else FinalFeed(s[n + 1..])
  {
  }

  // A solver aid only: it keeps the proofs that use it within the verifier's budget.
  lemma GlueLines(a: string, j: string, f: string, t: string)
    requires j + f == t
    ensures a + "\n" + j + f == a + "\n" + t
  {
  }

  /** One step of `SplitLines` at a line feed. */
  lemma SplitLinesStep(s: string, n: nat)
    requires n == LeadCount(s, NotBreak) && n < |s| && s[n] == '\n'
    ensures SplitLines(s) == [s[..n]] + SplitLines(s[n + 1..])
  {
  }

  lemma JoinHead(a: string, rest: seq<string>, sep: string)
    requires |rest| >= 1
    ensures Join([a] + rest, sep) == a + sep + Join(rest, sep)
  {
    assert ([a] + rest)[1..] == rest;
  }

  /** `t` occurs somewhere in `s` (Python `t in s`, JavaScript `s.includes(t)`). */
  predicate Infix(t: string, s: string)
    decreases |s|
  {
    t <= s || (s != [] && Infix(t, s[1..]))
  }

  /** ASCII lower-casing of one character. */
  function LowerChar(c: char): char {
    if 'A' <= c <= 'Z' then (c as int + 32) as char else c
  }

  /** Lower-casing, ASCII letters only. */
  function Lower(s: string): (r: string)
    ensures |r| == |s|
    ensures forall i :: 0 <= i < |s| ==> r[i] == LowerChar(s[i])
  {
    if s == [] then [] else [LowerChar(s[0])] + Lower(s[1..])
  }

  /** Lower-casing twice is lower-casing once. */
  lemma LowerIdempotent(s: string)
    ensures Lower(Lower(s)) == Lower(s)
  {
    assert forall i :: 0 <= i < |s| ==> Lower(Lower(s))[i] == Lower(s)[i];
  }

  /** Lower-casing neither creates nor removes Python whitespace. */
  lemma LowerSpace(c: char)
    ensures PySpace(LowerChar(c)) == PySpace(c)
  {
  }

  lemma {:induction false} LowerAppend(a: string, b: string)
    ensures Lower(a + b) == Lower(a) + Lower(b)
    decreases |a|
  {
    if a == [] {
      assert a + b == b;
    } else {
      assert (a + b)[1..] == a[1..] + b;
      LowerAppend(a[1..], b);
    }
  }

  lemma {:induction false} TrimLeftLower(s: string)
    ensures TrimLeft(Lower(s), PySpace) == Lower(TrimLeft(s, PySpace))
    decreases |s|
  {
    if |s| > 0 {
      LowerSpace(s[0]);
      if PySpace(s[0]) {
        TrimLeftLower(s[1..]);
      }
    }
  }

  lemma {:induction false} TrimRightLower(s: string)
    ensures TrimRight(Lower(s), PySpace) == Lower(TrimRight(s, PySpace))
    decreases |s|
  {
    if |s| > 0 {
      LowerSpace(s[|s| - 1]);
      assert s == s[..|s| - 1] + [s[|s| - 1]];
      LowerAppend(s[..|s| - 1], [s[|s| - 1]]);
      if PySpace(s[|s| - 1]) {
        TrimRightLower(s[..|s| - 1]);
      }
    }
  }

  /** `s.lower().strip() == s.strip().lower()`. */
  lemma StripLower(s: string)
    ensures Strip(Lower(s)) == Lower(Strip(s))
  {
    TrimLeftLower(s);
    TrimRightLower(TrimLeft(s, PySpace));
  }

  /** Python `s.replace(from, to)` for one-character `from` and `to`. */
  function ReplaceChar(s: string, from: char, to: char): (r: string)
    ensures |r| == |s|
    ensures forall i :: 0 <= i < |s| ==> r[i] == (if s[i] == from then to else s[i])
  {
    if s == [] then [] else [if s[0] == from then to else s[0]] + ReplaceChar(s[1..], from, to)
  }

  function Digit(d: nat): char
    requires d < 10
  {
    "0123456789"[d]
  }

  predicate IsDigit(c: char) { '0' <= c <= '9' }

  /** The decimal rendering of `n` (Python `str(n)`, a JavaScript template literal). */
  function Decimal(n: nat): (r: string)
    ensures |r| >= 1
    ensures forall i :: 0 <= i < |r| ==> IsDigit(r[i])
    ensures |r| > 1 ==> r[0] != '0'
    decreases n
  {
    if n < 10 then [Digit(n)] else Decimal(n / 10) + [Digit(n % 10)]
  }

  /** Reading a string of decimal digits back as a number. */
  function DecimalValue(s: string): nat
    requires forall i :: 0 <= i < |s| ==> IsDigit(s[i])
  {
    if s == [] then 0
    else
      var d := s[|s| - 1];
      assert IsDigit(d);
      DecimalValue(s[..|s| - 1]) * 10 + (d as int - '0' as int)
  }

  /** Reading back a rendered number gives the number. */
  lemma {:induction false} DecimalRoundTrip(n: nat)
    ensures DecimalValue(Decimal(n)) == n
    decreases n
  {
    if n >= 10 {
      DecimalRoundTrip(n / 10);
      var s := Decimal(n);
      assert s[..|s| - 1] == Decimal(n / 10);
    }
  }

  /** Different numbers render differently. */
  lemma DecimalInjective(m: nat, n: nat)
    requires Decimal(m) == Decimal(n)
    ensures m == n
  {
    DecimalRoundTrip(m);
    DecimalRoundTrip(n);
  }

  /** Python `s.find(c)`: the first index of `c`, or -1. */
  function Find(s: string, c: char): (r: int)
    ensures -1 <= r < |s|
    ensures r >= 0 ==> s[r] == c && forall i :: 0 <= i < r ==> s[i] != c
    ensures r == -1 ==> c !in s
  {
    if s == [] then -1
    else if s[0] == c then 0
    else var k := Find(s[1..], c); if k == -1 then -1 else k + 1
  }

  /** Python `s.rfind(c)`: the last index of `c`, or -1. */
  function RFind(s: string, c: char): (r: int)
    ensures -1 <= r < |s|
    ensures r >= 0 ==> s[r] == c && forall i :: r < i < |s| ==> s[i] != c
    ensures r == -1 ==> c !in s
  {
    if s == [] then -1
    else if s[|s| - 1] == c then |s| - 1
    else RFind(s[..|s| - 1], c)
  }

  /** Python slicing `s[i:j]` for `0 <= i` and `0 <= j`: empty when `j <= i`, clipped at the end. */
  function Slice(s: string, i: nat, j: nat): (r: string)
    ensures |r| <= |s|
    ensures i < j <= |s| ==> r == s[i..j]
    ensures j <= i ==> r == ""
  {
    var e := if j > |s| then |s| else j;
    if e <= i then "" else s[i..e]
  }

  /** Python `s[:n]` for `n >= 0`. */
  function Prefix<T>(s: seq<T>, n: nat): (r: seq<T>)
    ensures |r| == (if n < |s| then n else |s|)
    ensures r == s[..|r|]
  {
    if n < |s| then s[..n] else s
  }
}
