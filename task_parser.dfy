/** The input reader: a Word document is read as a stream of lines in which page breaks
    become a marker line, and the lines are grouped into tasks, one per line holding an
    `http://` or `https://` address; the non-empty lines since the previous task or page
    break give its source, date and snippet. */
module TaskParser {
  import opened Wrappers
  import opened Text
  import opened Records

  /** The line the reader emits for a page break. */
  const PageBreakMarker := "#new page#"

  /** A child element of a run: `w:t` with its (possibly absent) text, `w:br` with its
      (possibly absent) `w:type` attribute, or anything else. */
  datatype RunChild = TextChild(text: Option<string>) | BreakChild(kind: Option<string>) | OtherChild

  type Run = seq<RunChild>
  type Paragraph = seq<Run>
  type Document = seq<Paragraph>

  /** What the reader emits, before it is rendered to a string. */
  datatype Item = TextLine(text: string) | PageMarker

  predicate IsPageBreak(c: RunChild) {
    c.BreakChild? && c.kind == Some("page")
  }

  /** The text a child contributes to the pending parts. */
  function ChildPart(c: RunChild): string {
    if c.TextChild? then c.text.GetOr("") else ""
  }

  // ---------------------------------------------------------------------------------
  // Reading the document

  /** Flushing the pending parts yields their text only when it is non-empty. */
  function Flush(pending: string): (r: seq<Item>)
    ensures |r| <= 1 && (r == [] <==> pending == "")
  {
    if pending == "" then [] else [TextLine(pending)]
  }

  /** The items the children `cs` yield when `pending` text has already been gathered and
      the end of the paragraph follows them. */
  function Scan(pending: string, cs: seq<RunChild>): (r: seq<Item>)
    ensures forall i :: 0 <= i < |r| && r[i].TextLine? ==> r[i].text != ""
    decreases |cs|
  {
    if cs == [] then Flush(pending)
    else if IsPageBreak(cs[0]) then Flush(pending) + [PageMarker] + Scan("", cs[1..])
    else Scan(pending + ChildPart(cs[0]), cs[1..])
  }

  /** The children of a paragraph, run after run. */
  function Flatten(runs: seq<Run>): seq<RunChild> {
    if runs == [] then [] else runs[0] + Flatten(runs[1..])
  }

  /** The items of a whole document; every paragraph ends with a flush, so no text is
      carried from one paragraph into the next. */
  function DocItems(doc: Document): (r: seq<Item>)
    ensures forall i :: 0 <= i < |r| && r[i].TextLine? ==> r[i].text != ""
  {
    if doc == [] then []
    else DocItems(doc[..|doc| - 1]) + Scan("", Flatten(doc[|doc| - 1]))
  }

  function RenderItem(item: Item): string {
    match item
    case TextLine(t) => t
    case PageMarker => PageBreakMarker
  }

  /** The strings the reader yields. */
  function Render(items: seq<Item>): seq<string> {
    seq(|items|, i requires 0 <= i < |items| => RenderItem(items[i]))
  }

  lemma RenderAppend(a: seq<Item>, b: seq<Item>)
    ensures Render(a + b) == Render(a) + Render(b)
  {
    assert forall i :: 0 <= i < |a + b| ==> Render(a + b)[i] == (Render(a) + Render(b))[i];
  }

  /** A text child adds its part to the pending parts. */
  lemma TextStep(lines: seq<string>, parts: seq<string>, c: RunChild, after: seq<RunChild>)
    requires c.TextChild?
    ensures lines + Render(Scan(Concat(parts), [c] + after))
      == lines + Render(Scan(Concat(parts + [c.text.GetOr("")]), after))
  {
    assert ([c] + after)[1..] == after;
    ConcatAppend(parts, [c.text.GetOr("")]);
    assert Concat([c.text.GetOr("")]) == c.text.GetOr("");
  }

  /** A page break flushes the pending parts, then yields the marker. */
  lemma BreakStep(lines: seq<string>, parts: seq<string>, c: RunChild, after: seq<RunChild>)
    requires IsPageBreak(c)
    ensures var text := Concat(parts);
      lines + Render(Scan(Concat(parts), [c] + after))
      == (if text != "" then lines + [text] else lines) + [PageBreakMarker] + Render(Scan(Concat([]), after))
  {
    var text := Concat(parts);
    var rest := Scan("", after);
    ScanBreak(text, c, after);
    RenderAppend(Flush(text) + [PageMarker], rest);
    RenderAppend(Flush(text), [PageMarker]);
    RenderFlush(text);
    BreakShape(lines, text, Render(Flush(text)), Render(rest));
    assert Concat([]) == "";
  }

  // A solver aid only: it keeps the proofs that use it within the verifier's budget.
  lemma BreakShape(lines: seq<string>, text: string, flushed: seq<string>, rest: seq<string>)
    requires flushed == (if text != "" then [text] else [])
    ensures lines + (flushed + [PageBreakMarker] + rest)
      == (if text != "" then lines + [text] else lines) + [PageBreakMarker] + rest
  {
  }

  lemma ScanBreak(pending: string, c: RunChild, after: seq<RunChild>)
    requires IsPageBreak(c)
    ensures Scan(pending, [c] + after) == Flush(pending) + [PageMarker] + Scan("", after)
  {
    assert ([c] + after)[0] == c;
    assert ([c] + after)[1..] == after;
  }

  lemma RenderFlush(text: string)
    ensures Render(Flush(text)) == (if text != "" then [text] else [])
    ensures Render([PageMarker]) == [PageBreakMarker]
  {
  }

  /** Any other child, including a break of another type, changes nothing. */
  lemma OtherStep(lines: seq<string>, parts: seq<string>, c: RunChild, after: seq<RunChild>)
    requires !c.TextChild? && !IsPageBreak(c)
    ensures lines + Render(Scan(Concat(parts), [c] + after)) == lines + Render(Scan(Concat(parts), after))
  {
    assert ([c] + after)[1..] == after;
    assert Concat(parts) + "" == Concat(parts);
  }

  /** The reader's innermost loop, over the children of one run; `rest` stands for the
      children that follow in the same paragraph. */
  method ReadRun(run: Run, ghost rest: seq<RunChild>, parts0: seq<string>, lines0: seq<string>)
    returns (parts: seq<string>, lines: seq<string>)
    ensures lines0 + Render(Scan(Concat(parts0), run + rest)) == lines + Render(Scan(Concat(parts), rest))
  {
    parts, lines := parts0, lines0;
    ghost var goal := lines0 + Render(Scan(Concat(parts0), run + rest));
    assert run[0..] == run;
    var ci := 0;
    while ci < |run|
      invariant 0 <= ci <= |run|
      invariant goal == lines + Render(Scan(Concat(parts), run[ci..] + rest))
    {
      var child := run[ci];
      ghost var after := run[ci + 1..] + rest;
      assert run[ci..] + rest == [child] + after;
      match child {
        case TextChild(t) =>
          TextStep(lines, parts, child, after);
          parts := parts + [t.GetOr("")];
        case BreakChild(k) =>
          if k == Some("page") {
            BreakStep(lines, parts, child, after);
            var text := Concat(parts);
            parts := [];
            if text != "" {
              lines := lines + [text];
            }
            lines := lines + [PageBreakMarker];
          } else {
            OtherStep(lines, parts, child, after);
          }
        case OtherChild =>
          OtherStep(lines, parts, child, after);
      }
      ci := ci + 1;
    }
    assert run[|run|..] + rest == rest;
  }

  /** The runs of one paragraph, read with the pending parts starting empty. */
  method ReadParagraph(p: Paragraph, lines0: seq<string>) returns (parts: seq<string>, lines: seq<string>)
    ensures lines0 + Render(Scan("", Flatten(p))) == lines + Render(Scan(Concat(parts), []))
  {
    parts, lines := [], lines0;
    ghost var goal := lines0 + Render(Scan("", Flatten(p)));
    assert p[0..] == p;
    var ri := 0;
    while ri < |p|
      invariant 0 <= ri <= |p|
      invariant goal == lines + Render(Scan(Concat(parts), Flatten(p[ri..])))
    {
      assert p[ri..][0] == p[ri] && p[ri..][1..] == p[ri + 1..];
      parts, lines := ReadRun(p[ri], Flatten(p[ri + 1..]), parts, lines);
      ri := ri + 1;
    }
    assert p[|p|..] == [];
  }

  /** The reader's loop over paragraphs and their runs, with one list of pending parts
      shared by all of them; it yields exactly the rendered items of the document. */
  method IterLines(doc: Document) returns (lines: seq<string>)
    ensures lines == Render(DocItems(doc))
  {
    var parts: seq<string> := [];
    lines := [];
    var pi := 0;
    while pi < |doc|
      invariant 0 <= pi <= |doc|
      invariant parts == []
      invariant lines == Render(DocItems(doc[..pi]))
    {
      var p := doc[pi];
      parts, lines := ReadParagraph(p, lines);
      var text := Concat(parts);
      parts := [];
      if text != "" {
        lines := lines + [text];
      }
      assert doc[..pi + 1][..pi] == doc[..pi];
      RenderAppend(DocItems(doc[..pi]), Scan("", Flatten(p)));
      pi := pi + 1;
    }
    assert doc[..|doc|] == doc;
  }

  /** The reader never yields an empty line, so the parse loop's check for one never
      fires on a document it reads. */
  lemma ReaderNoEmpty(doc: Document)
    ensures forall i :: 0 <= i < |Render(DocItems(doc))| ==> Render(DocItems(doc))[i] != ""
  {
  }

  // Properties of the reader: no text is lost or reordered, and every page break gives
  // exactly one marker.

  /** The text of the `w:t` children, in order. */
  function ChildText(cs: seq<RunChild>): string {
    if cs == [] then "" else ChildPart(cs[0]) + ChildText(cs[1..])
  }

  /** The text of the text items, in order. */
  function ItemText(items: seq<Item>): string {
    if items == [] then "" else (if items[0].TextLine? then items[0].text else "") + ItemText(items[1..])
  }

  function Breaks(cs: seq<RunChild>): nat {
    if cs == [] then 0 else (if IsPageBreak(cs[0]) then 1 else 0) + Breaks(cs[1..])
  }

  function Markers(items: seq<Item>): nat {
    if items == [] then 0 else (if items[0].PageMarker? then 1 else 0) + Markers(items[1..])
  }

  /** All children of the document, paragraph after paragraph. */
  function AllChildren(doc: Document): seq<RunChild> {
    if doc == [] then [] else AllChildren(doc[..|doc| - 1]) + Flatten(doc[|doc| - 1])
  }

  lemma {:induction false} ChildAppend(a: seq<RunChild>, b: seq<RunChild>)
    ensures ChildText(a + b) == ChildText(a) + ChildText(b)
    ensures Breaks(a + b) == Breaks(a) + Breaks(b)
    decreases |a|
  {
    if a == [] {
      assert a + b == b;
    } else {
      ChildAppend(a[1..], b);
      ChildStep(a, b);
    }
  }

  lemma ChildStep(a: seq<RunChild>, b: seq<RunChild>)
    requires a != []
    ensures ChildText(a + b) == ChildPart(a[0]) + ChildText(a[1..] + b)
    ensures Breaks(a + b) == (if IsPageBreak(a[0]) then 1 else 0) + Breaks(a[1..] + b)
  {
    assert (a + b)[0] == a[0];
    assert (a + b)[1..] == a[1..] + b;
  }

  lemma {:induction false} ItemAppend(a: seq<Item>, b: seq<Item>)
    ensures ItemText(a + b) == ItemText(a) + ItemText(b)
    ensures Markers(a + b) == Markers(a) + Markers(b)
    decreases |a|
  {
    if a == [] {
      assert a + b == b;
    } else {
      assert (a + b)[1..] == a[1..] + b;
      ItemAppend(a[1..], b);
    }
  }

  /** Scanning children yields the pending text followed by the children's text, and one
      marker per page break. */
  lemma {:induction false} ScanPreserves(pending: string, cs: seq<RunChild>)
    ensures ItemText(Scan(pending, cs)) == pending + ChildText(cs)
    ensures Markers(Scan(pending, cs)) == Breaks(cs)
    decreases |cs|
  {
    if cs == [] {
    } else if IsPageBreak(cs[0]) {
      ScanPreserves("", cs[1..]);
      FlushMarker(pending, Scan("", cs[1..]));
    } else {
      ScanPreserves(pending + ChildPart(cs[0]), cs[1..]);
      assert pending + ChildPart(cs[0]) + ChildText(cs[1..]) == pending + (ChildPart(cs[0]) + ChildText(cs[1..]));
    }
  }

  /** A flush and a marker in front of `rest` add the pending text and one marker. */
  lemma FlushMarker(pending: string, rest: seq<Item>)
    ensures ItemText(Flush(pending) + [PageMarker] + rest) == pending + ItemText(rest)
    ensures Markers(Flush(pending) + [PageMarker] + rest) == 1 + Markers(rest)
  {
    ItemAppend(Flush(pending), [PageMarker]);
    ItemAppend(Flush(pending) + [PageMarker], rest);
    assert ItemText([PageMarker]) == "" && Markers([PageMarker]) == 1;
    assert ItemText(Flush(pending)) == pending && Markers(Flush(pending)) == 0;
  }

  /** Over a whole document, the text lines spell out the document's text in order, and
      there is one marker per page break. */
  lemma {:induction false} DocPreserves(doc: Document)
    ensures ItemText(DocItems(doc)) == ChildText(AllChildren(doc))
    ensures Markers(DocItems(doc)) == Breaks(AllChildren(doc))
    decreases |doc|
  {
    if doc != [] {
      var init := doc[..|doc| - 1];
      var last := Flatten(doc[|doc| - 1]);
      DocPreserves(init);
      ScanPreserves("", last);
      ItemAppend(DocItems(init), Scan("", last));
      ChildAppend(AllChildren(init), last);
    }
  }

  // ---------------------------------------------------------------------------------
  // Finding the address

  predicate NotSpace(c: char) { !PySpace(c) }

  /** The length of the scheme part of the pattern at the start of `t`: 8 for `https://`,
      7 for `http://`, 0 when neither is there. */
  function Scheme(t: string): (k: nat)
    ensures k == 8 ==> "https://" <= t
    ensures k == 7 ==> "http://" <= t
    ensures k == 0 ==> !("https://" <= t) && !("http://" <= t)
    ensures k == 0 || k == 7 || k == 8
  {
    if "https://" <= t then 8 else if "http://" <= t then 7 else 0
  }

  /** The length of the match of `https?://[^\s]+` anchored at the start of `t`, or 0 when
      it does not match there. The run of non-space characters is greedy, and once `s`
      is present the shorter scheme cannot match, so the longest run is taken. */
  function MatchLen(t: string): (n: nat)
    ensures n <= |t|
  {
    var k := Scheme(t);
    if k == 0 then 0
    else
      var run := TakeWhile(t[k..], NotSpace);
      if run == [] then 0 else k + |run|
  }

  /** A match is the scheme followed by the longest non-empty run of non-space
      characters; there is no match exactly when the scheme is missing or is followed by
      whitespace or the end of the text. */
  lemma MatchFacts(t: string)
    ensures var n := MatchLen(t); var k := Scheme(t);
      && (n > 0 ==> 0 < k < n && (n == |t| || !NotSpace(t[n])))
      && (n > 0 ==> forall j :: k <= j < n ==> NotSpace(t[j]))
      && (n == 0 <==> k == 0 || |t| == k || !NotSpace(t[k]))
  {
    var k := Scheme(t);
    if k > 0 {
      var run := TakeWhile(t[k..], NotSpace);
      assert forall j :: 0 <= j < |run| ==> t[k + j] == run[j];
    }
  }

  /** The first index in `[i, n)` where `hit` holds, or -1. */
  function FirstWhere(n: nat, i: nat, hit: nat -> bool): (r: int)
    requires i <= n
    ensures r == -1 || i <= r < n
    decreases n - i
  {
    if i == n then -1 else if hit(i) then i else FirstWhere(n, i + 1, hit)
  }

  lemma {:induction false} FirstWhereLeftmost(n: nat, i: nat, hit: nat -> bool)
    requires i <= n
    ensures var r := FirstWhere(n, i, hit);
      && (r >= 0 ==> hit(r) && forall j :: i <= j < r ==> !hit(j))
      && (r < 0 ==> forall j :: i <= j < n ==> !hit(j))
    decreases n - i
  {
    if i < n && !hit(i) {
      FirstWhereLeftmost(n, i + 1, hit);
    }
  }

  /** The positions of `s` where the pattern matches. */
  function MatchesAt(s: string): nat -> bool {
    (j: nat) => j <= |s| && MatchLen(s[j..]) > 0
  }

  /** `pattern.search(s)`: the leftmost position where the pattern matches, or -1. */
  function FirstMatch(s: string): (r: int)
    ensures r == -1 || 0 <= r < |s|
  {
    FirstWhere(|s|, 0, MatchesAt(s))
  }

  /** The search finds a match, and no match starts before it; when it reports none,
      the pattern matches nowhere. */
  lemma FirstMatchLeftmost(s: string)
    ensures var r := FirstMatch(s);
      && (r >= 0 ==> MatchesAt(s)(r) && forall j :: 0 <= j < r ==> !MatchesAt(s)(j))
      && (r < 0 ==> forall j :: 0 <= j <= |s| ==> !MatchesAt(s)(j))
  {
    FirstWhereLeftmost(|s|, 0, MatchesAt(s));
  }

  /** `url_match.group(0)`, when there is a match. */
  function FindUrl(s: string): Option<string> {
    var p := FirstMatch(s);
    if p < 0 then None else Some(s[p..p + MatchLen(s[p..])])
  }

  /** The punctuation stripped from the end of a matched address. */
  predicate UrlPunct(c: char) {
    c == '.' || c == ',' || c == ';' || c == ':' || c == ')' || c == '(' || c == '"' || c == '\''
  }

  function CleanUrl(m: string): string {
    TrimRight(m, UrlPunct)
  }

  /** A cleaned address is a prefix of the match that keeps its whole scheme, holds no
      whitespace, and does not end in the stripped punctuation. */
  lemma UrlFacts(s: string)
    requires FindUrl(s).Some?
    ensures var m := FindUrl(s).value; var u := CleanUrl(m);
      && u <= m
      && ("https://" <= u || "http://" <= u)
      && !UrlPunct(u[|u| - 1])
      && forall k :: Scheme(u) <= k < |u| ==> NotSpace(u[k])
  {
    var p := FirstMatch(s);
    FirstMatchLeftmost(s);
    var t := s[p..];
    var n := MatchLen(t);
    var m := FindUrl(s).value;
    MatchFacts(t);
    assert m == t[..n];
    var k := Scheme(t);
    assert m[..k] == t[..k];
    CleanKeepsScheme(m, k);
  }

  /** Stripping trailing punctuation off a match stops at the `/` that ends its scheme at
      the latest. */
  lemma CleanKeepsScheme(m: string, k: nat)
    requires k == Scheme(m) && 0 < k < |m| && m[k - 1] == '/'
    requires forall j :: k <= j < |m| ==> NotSpace(m[j])
    ensures var u := CleanUrl(m);
      && u <= m
      && ("https://" <= u || "http://" <= u)
      && !UrlPunct(u[|u| - 1])
      && forall j :: Scheme(u) <= j < |u| ==> NotSpace(u[j])
  {
    var u := CleanUrl(m);
    assert |u| >= k;
    assert u[..k] == m[..k];
    assert Scheme(u) == k;
  }

  // ---------------------------------------------------------------------------------
  // Grouping lines into tasks

  /** A line that clears the buffer: a page marker or a line holding an address. */
  predicate IsReset(text: string) {
    text == PageBreakMarker || FindUrl(text).Some?
  }

  /** The buffer after the loop has consumed `lines`. */
  function Pending(lines: seq<string>): seq<string>
    decreases |lines|
  {
    if lines == [] then []
    else
      var prev := Pending(lines[..|lines| - 1]);
      var text := lines[|lines| - 1];
      if text == "" then prev
      else if text == PageBreakMarker then []
      else if FindUrl(text).Some? then []
      else prev + [text]
  }

  /** The elements of `s` other than `x`, in order. */
  function Without(s: seq<string>, x: string): (r: seq<string>)
    ensures forall i :: 0 <= i < |r| ==> r[i] != x
  {
    if s == [] then []
    else (if s[0] == x then [] else [s[0]]) + Without(s[1..], x)
  }

  /** The task record built from the buffer and the cleaned address. */
  function MakeTask(buffer: seq<string>, url: string): Entry {
    var snippetLines := Without(buffer, PageBreakMarker);
    var source := if |snippetLines| >= 1 then snippetLines[0] else "Unknown Source";
    var date := if |snippetLines| >= 2 then snippetLines[1] else "Unknown Date";
    var body := if |snippetLines| >= 2 then snippetLines[2..] else [];
    var snippet := if body != [] then Join(body, "\n") else "";
    map["source" := VStr(source), "date" := VStr(date), "title" := VNone, "url" := VStr(url),
        "snippet" := VStr(snippet), "original_snippet" := VStr(snippet)]
  }

  /** The tasks the loop has produced after consuming `lines`. */
  function Tasks(lines: seq<string>): seq<Entry>
    decreases |lines|
  {
    if lines == [] then []
    else
      var init := lines[..|lines| - 1];
      var text := lines[|lines| - 1];
      var prev := Tasks(init);
      if text != "" && text != PageBreakMarker && FindUrl(text).Some?
      then prev + [MakeTask(Pending(init), CleanUrl(FindUrl(text).value))]
      else prev
  }

  /** The parse loop over the yielded lines. */
  method ParseLines(lines: seq<string>) returns (tasks: seq<Entry>)
    ensures tasks == Tasks(lines)
  {
    tasks := [];
    var buffer: seq<string> := [];
    var i := 0;
    while i < |lines|
      invariant 0 <= i <= |lines|
      invariant buffer == Pending(lines[..i])
      invariant tasks == Tasks(lines[..i])
    {
      var text := lines[i];
      assert lines[..i + 1][..i] == lines[..i];
      if text == "" {
      } else if text == PageBreakMarker {
        buffer := [];
      } else {
        match FindUrl(text) {
          case Some(found) =>
            var url := CleanUrl(found);
            tasks := tasks + [MakeTask(buffer, url)];
            buffer := [];
          case None =>
            buffer := buffer + [text];
        }
      }
      i := i + 1;
    }
    assert lines[..|lines|] == lines;
  }

  /** `TaskParser.parse` on an opened document. */
  method Parse(doc: Document) returns (tasks: seq<Entry>)
    ensures tasks == Tasks(Render(DocItems(doc)))
  {
    var lines := IterLines(doc);
    tasks := ParseLines(lines);
  }

  // Properties of the grouping.

  /** The buffer never holds an empty line, a marker or a line with an address, so the
      marker filter applied to it removes nothing. */
  lemma {:induction false} PendingClean(lines: seq<string>)
    ensures forall i :: 0 <= i < |Pending(lines)| ==> Pending(lines)[i] != "" && !IsReset(Pending(lines)[i])
    ensures Without(Pending(lines), PageBreakMarker) == Pending(lines)
    decreases |lines|
  {
    if lines != [] {
      PendingClean(lines[..|lines| - 1]);
    }
    WithoutAbsent(Pending(lines), PageBreakMarker);
  }

  lemma {:induction false} WithoutAbsent(s: seq<string>, x: string)
    requires forall i :: 0 <= i < |s| ==> s[i] != x
    ensures Without(s, x) == s
    decreases |s|
  {
    if s != [] {
      WithoutAbsent(s[1..], x);
    }
  }

  /** The index of the last line that clears the buffer, or -1. */
  function LastReset(lines: seq<string>): (r: int)
    ensures -1 <= r < |lines|
    ensures r >= 0 ==> IsReset(lines[r])
    ensures forall j :: r < j < |lines| ==> !IsReset(lines[j])
    decreases |lines|
  {
    if lines == [] then -1
    else if IsReset(lines[|lines| - 1]) then |lines| - 1
    else LastReset(lines[..|lines| - 1])
  }

  lemma EmptyNoUrl()
    ensures FindUrl("") == None
  {
  }

  /** The buffer is exactly the non-empty lines after the last page marker or address
      line. */
  lemma {:induction false} PendingAfterReset(lines: seq<string>)
    ensures Pending(lines) == NonEmpty(lines[LastReset(lines) + 1..])
    decreases |lines|
  {
    if lines != [] {
      var init := lines[..|lines| - 1];
      var text := lines[|lines| - 1];
      if IsReset(text) {
        assert lines[|lines|..] == [];
      } else {
        PendingAfterReset(init);
        PendingKeeps(lines);
        var a := LastReset(init) + 1;
        assert lines[a..] == init[a..] + [text];
        NonEmptySnoc(init[a..], text);
      }
    }
  }

  /** A line that is neither a page marker nor an address line joins the buffer when it
      is not empty, and does not move the last reset. */
  lemma PendingKeeps(lines: seq<string>)
    requires lines != [] && !IsReset(lines[|lines| - 1])
    ensures Pending(lines) == Pending(lines[..|lines| - 1]) + NonEmpty([lines[|lines| - 1]])
    ensures LastReset(lines) == LastReset(lines[..|lines| - 1])
  {
    EmptyNoUrl();
    var text := lines[|lines| - 1];
    assert NonEmpty([text]) == (if text != "" then [text] else []);
  }

  // A solver aid only: it keeps the proofs that use it within the verifier's budget.
  lemma NonEmptySnoc(q: seq<string>, text: string)
    ensures NonEmpty(q + [text]) == NonEmpty(q) + NonEmpty([text])
  {
    NonEmptyAppend(q, [text]);
  }

  /** The cleaned addresses of the lines that hold one, in order: one per task. */
  function Urls(lines: seq<string>): seq<string>
    decreases |lines|
  {
    if lines == [] then []
    else
      var text := lines[|lines| - 1];
      Urls(lines[..|lines| - 1]) + (if FindUrl(text).Some? then [CleanUrl(FindUrl(text).value)] else [])
  }

  lemma MarkerNoUrl()
    ensures FindUrl(PageBreakMarker) == None
  {
    FirstMatchLeftmost(PageBreakMarker);
    forall j | 0 <= j <= |PageBreakMarker|
      ensures !MatchesAt(PageBreakMarker)(j)
    {
      var t := PageBreakMarker[j..];
      assert t == [] || t[0] != 'h';
    }
  }

  lemma TaskKeys(buffer: seq<string>, url: string)
    ensures var t := MakeTask(buffer, url);
      && t.Keys == {"source", "date", "title", "url", "snippet", "original_snippet"}
      && "url" in t && t["url"] == VStr(url) && t["title"] == VNone && t["snippet"] == t["original_snippet"]
  {
    assert |"source"| == 6 && |"date"| == 4 && |"title"| == 5 && |"url"| == 3;
    assert |"snippet"| == 7 && |"original_snippet"| == 16;
  }

  /** There is one task per line with an address, in order, and each carries that line's
      cleaned address. */
  lemma {:induction false} TasksUrls(lines: seq<string>)
    ensures |Tasks(lines)| == |Urls(lines)|
    ensures forall k :: 0 <= k < |Tasks(lines)| ==> "url" in Tasks(lines)[k] && Tasks(lines)[k]["url"] == VStr(Urls(lines)[k])
    decreases |lines|
  {
    if lines != [] {
      var init := lines[..|lines| - 1];
      var text := lines[|lines| - 1];
      TasksUrls(init);
      EmptyNoUrl();
      MarkerNoUrl();
      if FindUrl(text).Some? {
        var url := CleanUrl(FindUrl(text).value);
        TaskKeys(Pending(init), url);
        UrlsAppend(Tasks(init), Urls(init), MakeTask(Pending(init), url), url);
      }
    }
  }

  lemma UrlsAppend(tasks: seq<Entry>, urls: seq<string>, t: Entry, url: string)
    requires |tasks| == |urls|
    requires forall k :: 0 <= k < |tasks| ==> "url" in tasks[k] && tasks[k]["url"] == VStr(urls[k])
    requires "url" in t && t["url"] == VStr(url)
    ensures var ts := tasks + [t]; var us := urls + [url];
      forall k :: 0 <= k < |ts| ==> "url" in ts[k] && ts[k]["url"] == VStr(us[k])
  {
  }

  /** The fields of a task built from a buffer the loop can hold: the first two buffered
      lines are the source and the date, with fixed defaults, and the rest, joined by line
      feeds, is the snippet. */
  lemma TaskFields(lines: seq<string>, url: string)
    ensures var b := Pending(lines); var t := MakeTask(b, url);
      && t["source"] == VStr(if |b| >= 1 then b[0] else "Unknown Source")
      && t["date"] == VStr(if |b| >= 2 then b[1] else "Unknown Date")
      && t["snippet"] == VStr(if |b| >= 2 then Join(b[2..], "\n") else "")
  {
    PendingClean(lines);
    TaskKeys(Pending(lines), url);
  }
}
