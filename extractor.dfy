/** The in-page content-block extractor: a filtered pre-order walk over the element tree
    under `document.body`, the `addCandidate` admission rules, the `<p>` fallback, the
    structural selector built by `describe`, and the numbered blocks it returns.
    Elements are named by their path of child indices from the root (the body), so that
    `a.contains(b)` is "the path of `a` is a prefix of the path of `b`". */
module Extractor {
  import opened Wrappers
  import opened Text

  const MinLength := 70
  const MaxLength := 2500
  /** The walk stops once this many candidates exist. */
  const WalkCap := 50
  /** At most this many blocks are returned. */
  const BlockCap := 30
  const Blacklist: set<string> := {"script", "style", "nav", "footer", "header", "form", "noscript"}

  /** An element: its `tagName`, its `id` ("" when it has none), its rendered `innerText`
      and its element children in document order. */
  datatype Element = Element(tagName: string, id: string, innerText: string, children: seq<Element>)

  type Path = seq<nat>

  /** A collected candidate: the element (by path) and its untrimmed `innerText`. */
  datatype Candidate = Candidate(path: Path, text: string)

  /** One returned block. */
  datatype Block = Block(id: string, selector: string, text: string)

  predicate Blacklisted(e: Element) { Lower(e.tagName) in Blacklist }

  predicate IsParagraph(e: Element) { Lower(e.tagName) == "p" }

  /** `innerText.trim().length`, counted in UTF-16 code units as JavaScript counts. */
  function TrimmedLength(e: Element): nat { JsLength(JsTrim(e.innerText)) }

  // ---------------------------------------------------------------------------
  // Paths into the tree

  /** The element a path names, if any. */
  function Lookup(root: Element, p: Path): Option<Element>
    decreases |p|
  {
    if p == [] then Some(root)
    else
      match Lookup(root, p[..|p| - 1])
      case None => None
      case Some(e) => if p[|p| - 1] < |e.children| then Some(e.children[p[|p| - 1]]) else None
  }

  predicate ValidPath(root: Element, p: Path) { Lookup(root, p).Some? }

  function At(root: Element, p: Path): Element
    requires ValidPath(root, p)
  {
    Lookup(root, p).value
  }

  function Parent(p: Path): Path
    requires p != []
  {
    p[..|p| - 1]
  }

  lemma {:induction false} ChildLookup(root: Element, base: Path, e: Element, k: nat)
    requires Lookup(root, base) == Some(e) && k < |e.children|
    ensures Lookup(root, base + [k]) == Some(e.children[k])
  {
    assert (base + [k])[..|base|] == base;
  }

  /** Every prefix of a path that names an element names an element (its ancestors). */
  lemma {:induction false} PrefixValid(root: Element, p: Path, d: nat)
    requires ValidPath(root, p) && d <= |p|
    ensures ValidPath(root, p[..d])
    decreases |p|
  {
    if d < |p| {
      PrefixValid(root, Parent(p), d);
      assert Parent(p)[..d] == p[..d];
    } else {
      assert p[..d] == p;
    }
  }

  // ---------------------------------------------------------------------------
  // Document order

  /** No later path names an ancestor of, or the same element as, an earlier one. */
  predicate PreOrdered(s: seq<Path>) {
    forall i, j :: 0 <= i < j < |s| ==> !(s[j] <= s[i])
  }

  /** Every path lies under `base`, below its child number `start` or a later one. */
  predicate Under(s: seq<Path>, base: Path, start: nat) {
    forall i :: 0 <= i < |s| ==> |s[i]| > |base| && s[i][..|base|] == base && s[i][|base|] >= start
  }

  /** A pre-order traversal of the forest `cs` (the children of the element at `base`,
      from child number `start` on) with a node filter: `prune` drops a node and its whole
      subtree (`FILTER_REJECT`), otherwise the node is returned when `emit` holds
      (`FILTER_ACCEPT`) and only skipped when it does not (`FILTER_SKIP`). */
  function Traverse(cs: seq<Element>, base: Path, start: nat, prune: Element -> bool, emit: Element -> bool): seq<Path>
    decreases cs
  {
    if cs == [] then []
    else
      var c := cs[0];
      var p := base + [start];
      (if prune(c) then [] else (if emit(c) then [p] else []) + Traverse(c.children, p, 0, prune, emit))
      + Traverse(cs[1..], base, start + 1, prune, emit)
  }

  predicate LongEnough(e: Element) { TrimmedLength(e) >= MinLength }

  predicate Never(e: Element) { false }

  /** The nodes `walker.nextNode()` returns, in order: the descendants of the body that
      are not inside (or at) a blacklisted element and whose trimmed text is long enough. */
  function Visit(root: Element): seq<Path> {
    Traverse(root.children, [], 0, Blacklisted, LongEnough)
  }

  /** `document.querySelectorAll('p')`: every paragraph of the tree in document order,
      blacklisted subtrees included. */
  function Paragraphs(root: Element): seq<Path> {
    (if IsParagraph(root) then [[]] else []) + Traverse(root.children, [], 0, Never, IsParagraph)
  }

  lemma PreOrderedConcat(a: seq<Path>, b: seq<Path>)
    requires PreOrdered(a) && PreOrdered(b)
    requires forall i, j :: 0 <= i < |a| && 0 <= j < |b| ==> !(b[j] <= a[i])
    ensures PreOrdered(a + b)
  {
    forall i, j | 0 <= i < j < |a + b| ensures !((a + b)[j] <= (a + b)[i]) {
      if j < |a| {
      } else if i >= |a| {
        assert (a + b)[j] == b[j - |a|] && (a + b)[i] == b[i - |a|];
      } else {
        assert (a + b)[j] == b[j - |a|] && (a + b)[i] == a[i];
      }
    }
  }

  lemma UnderConcat(a: seq<Path>, b: seq<Path>, base: Path, start: nat)
    requires Under(a, base, start) && Under(b, base, start)
    ensures Under(a + b, base, start)
  {
    forall i | 0 <= i < |a + b|
      ensures |(a + b)[i]| > |base| && (a + b)[i][..|base|] == base && (a + b)[i][|base|] >= start
    {
      if i < |a| { assert (a + b)[i] == a[i]; } else { assert (a + b)[i] == b[i - |a|]; }
    }
  }

  /** Every path lies under `base`, below exactly its child number `k`. */
  predicate AtChild(s: seq<Path>, base: Path, k: nat) {
    forall i :: 0 <= i < |s| ==> |s[i]| > |base| && s[i][..|base|] == base && s[i][|base|] == k
  }

  /** Paths under a later sibling never name an ancestor of, or the same element as, a
      path under an earlier one. */
  lemma SiblingsSeparate(head: seq<Path>, rest: seq<Path>, base: Path, k: nat)
    requires AtChild(head, base, k) && Under(rest, base, k + 1)
    ensures AtChild(head, base, k) && Under(head, base, k)
    ensures forall i, j :: 0 <= i < |head| && 0 <= j < |rest| ==> !(rest[j] <= head[i])
  {
    forall i, j | 0 <= i < |head| && 0 <= j < |rest| ensures !(rest[j] <= head[i]) {
      assert rest[j][|base|] > head[i][|base|];
    }
  }

  /** Every path names an element that passes the filter. */
  predicate Sound(root: Element, s: seq<Path>, prune: Element -> bool, emit: Element -> bool) {
    forall i :: 0 <= i < |s| ==> ValidPath(root, s[i]) && emit(At(root, s[i])) && !prune(At(root, s[i]))
  }

  lemma SoundConcat(root: Element, a: seq<Path>, b: seq<Path>, prune: Element -> bool, emit: Element -> bool)
    requires Sound(root, a, prune, emit) && Sound(root, b, prune, emit)
    ensures Sound(root, a + b, prune, emit)
  {
    forall i | 0 <= i < |a + b|
      ensures ValidPath(root, (a + b)[i]) && emit(At(root, (a + b)[i])) && !prune(At(root, (a + b)[i]))
    {
      if i < |a| { assert (a + b)[i] == a[i]; } else { assert (a + b)[i] == b[i - |a|]; }
    }
  }

  lemma AtChildConcat(a: seq<Path>, b: seq<Path>, base: Path, k: nat)
    requires AtChild(a, base, k) && AtChild(b, base, k)
    ensures AtChild(a + b, base, k)
  {
    forall i | 0 <= i < |a + b|
      ensures |(a + b)[i]| > |base| && (a + b)[i][..|base|] == base && (a + b)[i][|base|] == k
    {
      if i < |a| { assert (a + b)[i] == a[i]; } else { assert (a + b)[i] == b[i - |a|]; }
    }
  }

  /** Paths below the child `base + [k]` lie under `base` at child number `k`. */
  lemma BelowChild(below: seq<Path>, base: Path, k: nat)
    requires Under(below, base + [k], 0)
    ensures AtChild(below, base, k)
  {
    var p := base + [k];
    forall i | 0 <= i < |below| ensures |below[i]| > |base| && below[i][..|base|] == base && below[i][|base|] == k {
      assert below[i][..|p|] == p;
      assert below[i][..|base|] == p[..|base|];
      assert below[i][|base|] == p[|base|];
    }
  }

  /** A node comes before its descendants. */
  lemma NodeThenBelow(own: seq<Path>, below: seq<Path>, p: Path)
    requires |own| <= 1 && (own != [] ==> own[0] == p) && Under(below, p, 0)
    ensures PreOrdered(own + below)
    requires PreOrdered(below)
  {
    forall i, j | 0 <= i < |own| && 0 <= j < |below| ensures !(below[j] <= own[i]) {
      assert |below[j]| > |p|;
    }
    PreOrderedConcat(own, below);
  }

  lemma UnderWeaken(s: seq<Path>, base: Path, k: nat)
    requires Under(s, base, k + 1)
    ensures Under(s, base, k)
  {
  }

  /** What a traversal returns: paths that name elements passing the filter, under `base`
      from child `start` on, in document order. */
  lemma {:induction false} TraverseFacts(root: Element, e: Element, cs: seq<Element>, base: Path, start: nat,
                                         prune: Element -> bool, emit: Element -> bool)
    requires Lookup(root, base) == Some(e) && start <= |e.children| && cs == e.children[start..]
    ensures var r := Traverse(cs, base, start, prune, emit);
      Sound(root, r, prune, emit) && Under(r, base, start) && PreOrdered(r)
    decreases cs
  {
    if cs != [] {
      var c := cs[0];
      var p := base + [start];
      ChildLookup(root, base, e, start);
      var rest := Traverse(cs[1..], base, start + 1, prune, emit);
      assert cs[1..] == e.children[start + 1..];
      TraverseFacts(root, e, cs[1..], base, start + 1, prune, emit);
      var head: seq<Path> := [];
      if !prune(c) {
        var below := Traverse(c.children, p, 0, prune, emit);
        TraverseFacts(root, c, c.children, p, 0, prune, emit);
        var own: seq<Path> := if emit(c) then [p] else [];
        assert Sound(root, own, prune, emit);
        NodeThenBelow(own, below, p);
        SoundConcat(root, own, below, prune, emit);
        BelowChild(below, base, start);
        assert AtChild(own, base, start);
        AtChildConcat(own, below, base, start);
        head := own + below;
      }
      SiblingsSeparate(head, rest, base, start);
      PreOrderedConcat(head, rest);
      UnderWeaken(rest, base, start);
      UnderConcat(head, rest, base, start);
      SoundConcat(root, head, rest, prune, emit);
      assert Traverse(cs, base, start, prune, emit) == head + rest;
    }
  }

  lemma {:induction false} VisitFacts(root: Element)
    ensures forall i :: 0 <= i < |Visit(root)| ==> ValidPath(root, Visit(root)[i])
    ensures PreOrdered(Visit(root))
  {
    TraverseFacts(root, root, root.children, [], 0, Blacklisted, LongEnough);
  }

  lemma {:induction false} ParagraphsFacts(root: Element)
    ensures forall i :: 0 <= i < |Paragraphs(root)| ==> ValidPath(root, Paragraphs(root)[i])
    ensures PreOrdered(Paragraphs(root))
  {
    var r := Traverse(root.children, [], 0, Never, IsParagraph);
    TraverseFacts(root, root, root.children, [], 0, Never, IsParagraph);
    var own: seq<Path> := if IsParagraph(root) then [[]] else [];
    forall i, j | 0 <= i < |own| && 0 <= j < |r| ensures !(r[j] <= own[i]) {
      assert |r[j]| > 0;
    }
    PreOrderedConcat(own, r);
  }

  // ---------------------------------------------------------------------------
  // addCandidate

  /** A direct child whose trimmed text is at least 60% of the element's own
      (`childLen >= len * 0.6`, stated without reals: the double nearest 0.6 is below it
      by less than 10^-16, so for the lengths that occur the rounded product is `3 * len / 5`
      when that is whole and lies strictly between the same two integers otherwise). */
  predicate HeavyChild(e: Element) {
    exists i :: 0 <= i < |e.children| && 5 * TrimmedLength(e.children[i]) >= 3 * TrimmedLength(e)
  }

  /** An earlier candidate contains (or is) the element at `p`. */
  predicate Covered(cands: seq<Candidate>, p: Path) {
    exists k :: 0 <= k < |cands| && cands[k].path <= p
  }

  /** The four admission rules of `addCandidate`. */
  predicate Accepts(cands: seq<Candidate>, p: Path, e: Element) {
    && !Blacklisted(e)
    && MinLength <= TrimmedLength(e) <= MaxLength
    && !Covered(cands, p)
    && !HeavyChild(e)
  }

  /** `addCandidate(node)`: append the node and its text when the rules accept it. Every
      node handed to it is a node of the tree (`VisitFacts`, `ParagraphsFacts`); a path
      that names none is ignored so that the walk functions need no precondition. */
  function AddCandidate(root: Element, cands: seq<Candidate>, p: Path): seq<Candidate> {
    match Lookup(root, p)
    case None => cands
    case Some(e) => if Accepts(cands, p, e) then cands + [Candidate(p, e.innerText)] else cands
  }

  /** The walk loop: add each visited node, stopping as soon as `cap` candidates exist. */
  function Scan(root: Element, visit: seq<Path>, cands: seq<Candidate>, cap: nat): seq<Candidate>
    decreases |visit|
  {
    if visit == [] then cands
    else
      var next := AddCandidate(root, cands, visit[0]);
      if |next| >= cap then next else Scan(root, visit[1..], next, cap)
  }

  /** `forEach(addCandidate)` over a node list, with no cap. */
  function AddEach(root: Element, nodes: seq<Path>, cands: seq<Candidate>): seq<Candidate>
    decreases |nodes|
  {
    if nodes == [] then cands else AddEach(root, nodes[1..], AddCandidate(root, cands, nodes[0]))
  }

  /** The candidates of the tree walk alone. */
  function WalkPhase(root: Element): seq<Candidate> {
    Scan(root, Visit(root), [], WalkCap)
  }

  /** The candidates of the `<p>` fallback. */
  function Fallback(root: Element): seq<Candidate> {
    AddEach(root, Paragraphs(root), [])
  }

  /** All candidates: the walk's, or the fallback's when the walk accepted nothing. */
  function Candidates(root: Element): seq<Candidate> {
    var w := WalkPhase(root);
    if w == [] then Fallback(root) else w
  }

  // ---------------------------------------------------------------------------
  // What every collected candidate satisfies

  /** The candidate's text is its element's untrimmed `innerText`, and the element passes
      the blacklist, the length band and the heavy-child rule. */
  predicate Admissible(root: Element, c: Candidate) {
    && ValidPath(root, c.path)
    && var e := At(root, c.path);
    && c.text == e.innerText
    && !Blacklisted(e)
    && MinLength <= TrimmedLength(e) <= MaxLength
    && !HeavyChild(e)
  }

  /** All candidates are admissible and no candidate contains another or repeats it. */
  predicate Good(root: Element, cands: seq<Candidate>) {
    && (forall k :: 0 <= k < |cands| ==> Admissible(root, cands[k]))
    && (forall i, j :: 0 <= i < |cands| && 0 <= j < |cands| && i != j ==> !(cands[i].path <= cands[j].path))
  }

  predicate PathsValid(root: Element, cands: seq<Candidate>) {
    forall k :: 0 <= k < |cands| ==> ValidPath(root, cands[k].path)
  }

  lemma GoodPathsValid(root: Element, cands: seq<Candidate>)
    requires Good(root, cands)
    ensures PathsValid(root, cands)
  {
    forall k | 0 <= k < |cands| ensures ValidPath(root, cands[k].path) {
      assert Admissible(root, cands[k]);
    }
  }

  /** No path still to be visited names an ancestor of (or the same element as) a candidate. */
  predicate Ahead(cands: seq<Candidate>, visit: seq<Path>) {
    forall k, v :: 0 <= k < |cands| && 0 <= v < |visit| ==> !(visit[v] <= cands[k].path)
  }

  lemma {:induction false} AddKeepsGood(root: Element, cands: seq<Candidate>, visit: seq<Path>)
    requires visit != [] && ValidPath(root, visit[0])
    requires Good(root, cands) && Ahead(cands, visit) && PreOrdered(visit)
    ensures var next := AddCandidate(root, cands, visit[0]);
      Good(root, next) && Ahead(next, visit[1..]) && cands <= next && |next| <= |cands| + 1
  {
    var p := visit[0];
    var next := AddCandidate(root, cands, p);
    if Accepts(cands, p, At(root, p)) {
      forall i, j | 0 <= i < |next| && 0 <= j < |next| && i != j ensures !(next[i].path <= next[j].path) {
        if j == |cands| {
          assert !Covered(cands, p);
        } else if i == |cands| {
          assert !(visit[0] <= cands[j].path);
        }
      }
      forall k, v | 0 <= k < |next| && 0 <= v < |visit[1..]| ensures !(visit[1..][v] <= next[k].path) {
        assert visit[1..][v] == visit[v + 1];
        if k == |cands| {
          assert !(visit[v + 1] <= visit[0]);
        }
      }
    }
  }

  lemma {:induction false} ScanGood(root: Element, visit: seq<Path>, cands: seq<Candidate>, cap: nat)
    requires forall i :: 0 <= i < |visit| ==> ValidPath(root, visit[i])
    requires Good(root, cands) && Ahead(cands, visit) && PreOrdered(visit)
    ensures var r := Scan(root, visit, cands, cap);
      Good(root, r) && cands <= r && (|cands| < cap ==> |r| <= cap)
      && (|r| < cap ==> r == AddEach(root, visit, cands))
    decreases |visit|
  {
    if visit != [] {
      AddKeepsGood(root, cands, visit);
      var next := AddCandidate(root, cands, visit[0]);
      assert PreOrdered(visit[1..]) by {
        forall i, j | 0 <= i < j < |visit[1..]| ensures !(visit[1..][j] <= visit[1..][i]) {
          assert visit[1..][j] == visit[j + 1] && visit[1..][i] == visit[i + 1];
        }
      }
      if |next| < cap {
        ScanGood(root, visit[1..], next, cap);
      } else {
        // the walk stops here with at least `cap` candidates, so the last clause is vacuous
      }
    }
  }

  lemma {:induction false} AddEachGood(root: Element, nodes: seq<Path>, cands: seq<Candidate>)
    requires forall i :: 0 <= i < |nodes| ==> ValidPath(root, nodes[i])
    requires Good(root, cands) && Ahead(cands, nodes) && PreOrdered(nodes)
    ensures Good(root, AddEach(root, nodes, cands)) && cands <= AddEach(root, nodes, cands)
    decreases |nodes|
  {
    if nodes != [] {
      AddKeepsGood(root, cands, nodes);
      assert PreOrdered(nodes[1..]) by {
        forall i, j | 0 <= i < j < |nodes[1..]| ensures !(nodes[1..][j] <= nodes[1..][i]) {
          assert nodes[1..][j] == nodes[j + 1] && nodes[1..][i] == nodes[i + 1];
        }
      }
      AddEachGood(root, nodes[1..], AddCandidate(root, cands, nodes[0]));
    }
  }

  /** The walk phase yields at most 50 candidates, all admissible and none nested in
      another; it has fewer than 50 only when it ran through every visited node. */
  lemma {:induction false} WalkPhaseFacts(root: Element)
    ensures Good(root, WalkPhase(root))
    ensures |WalkPhase(root)| <= WalkCap
    ensures |WalkPhase(root)| < WalkCap ==> WalkPhase(root) == AddEach(root, Visit(root), [])
  {
    VisitFacts(root);
    var v := Visit(root);
    assert Good(root, []);
    assert Ahead([], v);
    ScanGood(root, v, [], WalkCap);
    assert WalkPhase(root) == Scan(root, v, [], WalkCap);
  }

  /** Every candidate, from the walk or from the `<p>` fallback, is admissible, and no
      candidate's element contains another candidate's element or is the same element. */
  lemma {:induction false} CandidatesGood(root: Element)
    ensures Good(root, Candidates(root))
  {
    WalkPhaseFacts(root);
    if WalkPhase(root) == [] {
      ParagraphsFacts(root);
      AddEachGood(root, Paragraphs(root), []);
    }
  }

  // ---------------------------------------------------------------------------
  // describe: the structural selector

  /** How many of `cs` have tag name `tag`. */
  function SameTag(cs: seq<Element>, tag: string): (n: nat)
    ensures n <= |cs|
  {
    if cs == [] then 0 else (if cs[0].tagName == tag then 1 else 0) + SameTag(cs[1..], tag)
  }

  lemma {:induction false} SameTagSplit(cs: seq<Element>, k: nat, tag: string)
    requires k < |cs|
    ensures SameTag(cs, tag) == SameTag(cs[..k], tag) + (if cs[k].tagName == tag then 1 else 0) + SameTag(cs[k + 1..], tag)
  {
    if k > 0 {
      SameTagSplit(cs[1..], k - 1, tag);
      assert cs[1..][..k - 1] == cs[..k][1..];
      assert cs[1..][k..] == cs[k + 1..];
    } else {
      assert cs[..0] == [];
    }
  }

  /** The selector segment of an element that carries no id and has a parent: its lower-case
      tag, with `:nth-of-type(k)` (k counted from 1 among same-tag siblings) only when
      the parent has more than one child of that tag. */
  function Segment(root: Element, p: Path): string
    requires p != [] && ValidPath(root, p)
  {
    var e := At(root, p);
    var siblings := At(root, Parent(p)).children;
    var k := p[|p| - 1];
    var tag := Lower(e.tagName);
    if SameTag(siblings, e.tagName) > 1
    then tag + ":nth-of-type(" + Decimal(SameTag(siblings[..k], e.tagName) + 1) + ")"
    else tag
  }

  /** The segment of the `html` element, whose id is `htmlId` ("" when it has none):
      its parent is the document, not an element, so the ascent ends there. */
  function HtmlSegment(htmlId: string): string {
    if htmlId != "" then "html#" + htmlId else "html"
  }

  /** The leading segments where the ascent stops: `tag#id` for an element with an id;
      for the body without one, its tag preceded by the segment of its parent, the
      `html` element (the body is taken to be the only `body` child of `html`, so it
      gets no `:nth-of-type`). */
  function Lead(htmlId: string, e: Element): seq<string> {
    if e.id != "" then [Lower(e.tagName) + "#" + e.id] else [HtmlSegment(htmlId), Lower(e.tagName)]
  }

  /** The segments of the selector of the element at `p`, outermost first. */
  function Segments(htmlId: string, root: Element, p: Path): seq<string>
    requires ValidPath(root, p)
    decreases |p|
  {
    var e := At(root, p);
    if e.id != "" || p == [] then Lead(htmlId, e)
    else Segments(htmlId, root, Parent(p)) + [Segment(root, p)]
  }

  /** The selector string `describe` returns. */
  function Selector(htmlId: string, root: Element, p: Path): string
    requires ValidPath(root, p)
  {
    Join(Segments(htmlId, root, p), " > ")
  }

  /** The depth of the element where the ascent from `p` stops. */
  function AnchorDepth(root: Element, p: Path): (d: nat)
    requires ValidPath(root, p)
    ensures d <= |p|
    decreases |p|
  {
    if At(root, p).id != "" || p == [] then |p| else AnchorDepth(root, Parent(p))
  }

  /** The ascent stops at the nearest ancestor-or-self that has an id, or at the body when
      there is none. */
  lemma {:induction false} AnchorFacts(root: Element, p: Path)
    requires ValidPath(root, p)
    ensures var d := AnchorDepth(root, p);
      && ValidPath(root, p[..d])
      && (d == 0 || At(root, p[..d]).id != "")
      && (forall m :: d < m <= |p| ==> ValidPath(root, p[..m]) && At(root, p[..m]).id == "")
    decreases |p|
  {
    assert p[..|p|] == p;
    if At(root, p).id != "" || p == [] {
    } else {
      var q := Parent(p);
      AnchorFacts(root, q);
      var d := AnchorDepth(root, q);
      assert q[..d] == p[..d];
      forall m | d < m <= |p| ensures ValidPath(root, p[..m]) && At(root, p[..m]).id == "" {
        PrefixValid(root, p, m);
        if m < |p| { assert q[..m] == p[..m]; }
      }
    }
  }

  /** The segments of `p` are `lead` followed by one segment for each element on the path
      below depth `d`, outermost first. */
  predicate Shaped(htmlId: string, root: Element, p: Path, d: nat, lead: seq<string>)
    requires ValidPath(root, p)
  {
    var segs := Segments(htmlId, root, p);
    && d <= |p|
    && |segs| == |lead| + |p| - d
    && segs[..|lead|] == lead
    && (forall m :: d < m <= |p| ==> ValidPath(root, p[..m]) && segs[|lead| + m - d - 1] == Segment(root, p[..m]))
  }

  /** The element where the ascent stops gives the leading segments, and each element
      below it on the path contributes one segment, outermost first. */
  lemma {:induction false} SegmentsShape(htmlId: string, root: Element, p: Path)
    requires ValidPath(root, p)
    ensures ValidPath(root, p[..AnchorDepth(root, p)])
    ensures Shaped(htmlId, root, p, AnchorDepth(root, p), Lead(htmlId, At(root, p[..AnchorDepth(root, p)])))
    decreases |p|
  {
    assert p[..|p|] == p;
    if At(root, p).id != "" || p == [] {
    } else {
      var q := Parent(p);
      SegmentsShape(htmlId, root, q);
      var d := AnchorDepth(root, q);
      assert q[..d] == p[..d];
      SegmentsExtend(htmlId, root, p, d, Lead(htmlId, At(root, p[..d])));
    }
  }

  /** One step of `SegmentsShape`: the segment of `p` goes after those of its parent. */
  lemma {:induction false} SegmentsExtend(htmlId: string, root: Element, p: Path, d: nat, lead: seq<string>)
    requires p != [] && ValidPath(root, p) && At(root, p).id == "" && d < |p|
    requires Shaped(htmlId, root, Parent(p), d, lead)
    ensures Shaped(htmlId, root, p, d, lead)
  {
    var q := Parent(p);
    var segs := Segments(htmlId, root, p);
    assert segs == Segments(htmlId, root, q) + [Segment(root, p)];
    assert segs[..|lead|] == Segments(htmlId, root, q)[..|lead|];
    forall m | d < m <= |p| ensures ValidPath(root, p[..m]) && segs[|lead| + m - d - 1] == Segment(root, p[..m]) {
      PrefixValid(root, p, m);
      if m < |p| {
        assert q[..m] == p[..m];
        assert segs[|lead| + m - d - 1] == Segments(htmlId, root, q)[|lead| + m - d - 1];
      } else {
        assert p[..m] == p;
      }
    }
  }

  /** `:nth-of-type(k)` numbers the element among its same-tag siblings: k is between 1
      and the number of such siblings. */
  lemma {:induction false} NthOfTypeInRange(root: Element, p: Path)
    requires p != [] && ValidPath(root, p)
    ensures var siblings := At(root, Parent(p)).children; var k := p[|p| - 1];
      k < |siblings| && 1 <= SameTag(siblings[..k], At(root, p).tagName) + 1 <= SameTag(siblings, At(root, p).tagName)
  {
    var siblings := At(root, Parent(p)).children;
    var k := p[|p| - 1];
    assert At(root, p) == siblings[k];
    SameTagSplit(siblings, k, siblings[k].tagName);
  }

  /** `describe(node)`: climbs from the element towards the `html` element, prepending
      one segment per level, and joins the segments with " > ". */
  method Describe(htmlId: string, root: Element, p: Path) returns (selector: string)
    requires ValidPath(root, p)
    ensures selector == Selector(htmlId, root, p)
  {
    var parts: seq<string> := [];
    var current := p;
    while true
      invariant ValidPath(root, current) && current <= p
      invariant Segments(htmlId, root, p) == Segments(htmlId, root, current) + parts
      decreases |current|
    {
      var e := At(root, current);
      if e.id != "" {
        parts := [Lower(e.tagName) + "#" + e.id] + parts;
        assert Segments(htmlId, root, p) == parts;
        break;
      }
      if current == [] {
        // the body's parent is the `html` element, whose parent is not an element
        var top := HtmlSegment(htmlId);
        assert Segments(htmlId, root, current) == [top, Lower(e.tagName)];
        parts := [top] + ([Lower(e.tagName)] + parts);
        assert Segments(htmlId, root, p) == parts;
        break;
      }
      parts := [Segment(root, current)] + parts;
      current := Parent(current);
    }
    selector := Join(parts, " > ");
  }

  // ---------------------------------------------------------------------------
  // The returned blocks

  function BlockId(n: nat): string { "block-" + Decimal(n) }

  /** Different ordinals give different block ids. */
  lemma {:induction false} BlockIdInjective(m: nat, n: nat)
    requires BlockId(m) == BlockId(n)
    ensures m == n
  {
    assert BlockId(m)[6..] == Decimal(m) && BlockId(n)[6..] == Decimal(n);
    DecimalInjective(m, n);
  }

  /** The first (at most 30) candidates become `block-1`, `block-2`, ... with their selector. */
  function BuildBlocks(htmlId: string, root: Element, cands: seq<Candidate>): seq<Block>
    requires PathsValid(root, cands)
  {
    var n := if |cands| < BlockCap then |cands| else BlockCap;
    seq(n, i requires 0 <= i < n => Block(BlockId(i + 1), Selector(htmlId, root, cands[i].path), cands[i].text))
  }

  /** What the in-page script returns for the body `root` of a page whose `html` element
      has the id `htmlId`. */
  function Extract(htmlId: string, root: Element): seq<Block> {
    CandidatesGood(root);
    GoodPathsValid(root, Candidates(root));
    BuildBlocks(htmlId, root, Candidates(root))
  }

  /** Numbering keeps the candidates' order and texts and uses each one's selector. */
  lemma {:induction false} BuildBlocksFacts(htmlId: string, root: Element, cands: seq<Candidate>)
    requires PathsValid(root, cands)
    ensures var bs := BuildBlocks(htmlId, root, cands);
      && |bs| == (if |cands| < BlockCap then |cands| else BlockCap)
      && (forall i :: 0 <= i < |bs| ==>
            bs[i] == Block(BlockId(i + 1), Selector(htmlId, root, cands[i].path), cands[i].text))
  {
  }

  /** Every block text of admissible candidates is in the length band once trimmed, its
      length counted in UTF-16 code units. */
  lemma {:induction false} BlockTextsInBand(htmlId: string, root: Element, cands: seq<Candidate>)
    requires Good(root, cands)
    ensures PathsValid(root, cands)
    ensures var bs := BuildBlocks(htmlId, root, cands);
      forall i :: 0 <= i < |bs| ==> MinLength <= JsLength(JsTrim(bs[i].text)) <= MaxLength
  {
    GoodPathsValid(root, cands);
    var bs := BuildBlocks(htmlId, root, cands);
    forall i | 0 <= i < |bs| ensures MinLength <= JsLength(JsTrim(bs[i].text)) <= MaxLength {
      assert bs[i].text == cands[i].text;
      assert Admissible(root, cands[i]);
    }
  }

  /** The extractor's guarantees: at most 30 blocks, numbered `block-1`... in acceptance
      order, each carrying the untrimmed text of an admissible element (trimmed length in
      [70, 2500] UTF-16 code units, not blacklisted, no heavy child) and that element's
      selector; no block's element contains another's; and the walk itself stops at 50
      candidates. */
  lemma {:induction false} ExtractFacts(htmlId: string, root: Element)
    ensures Good(root, Candidates(root))
    ensures var bs := Extract(htmlId, root); var cs := Candidates(root);
      && |bs| <= BlockCap
      && |bs| == (if |cs| < BlockCap then |cs| else BlockCap)
      && (forall i :: 0 <= i < |bs| ==>
            && bs[i].id == BlockId(i + 1)
            && bs[i].text == cs[i].text
            && MinLength <= JsLength(JsTrim(bs[i].text)) <= MaxLength
            && bs[i].selector == Selector(htmlId, root, cs[i].path))
    ensures |WalkPhase(root)| <= WalkCap
  {
    CandidatesGood(root);
    GoodPathsValid(root, Candidates(root));
    BuildBlocksFacts(htmlId, root, Candidates(root));
    BlockTextsInBand(htmlId, root, Candidates(root));
    WalkPhaseFacts(root);
  }

  /** The in-page script: the walker loop with its break at 50, the `<p>` fallback when
      nothing was accepted, and the loop that numbers at most 30 blocks. */
  method CollectTextBlocks(htmlId: string, root: Element) returns (blocks: seq<Block>)
    ensures blocks == Extract(htmlId, root)
  {
    var candidates := WalkLoop(root);
    if |candidates| == 0 {
      candidates := FallbackLoop(root);
    }
    assert candidates == Candidates(root);
    CandidatesGood(root);
    GoodPathsValid(root, candidates);
    blocks := NumberBlocks(htmlId, root, candidates);
  }

  /** The walker loop: every visited node is offered, up to the break at 50 candidates. */
  method WalkLoop(root: Element) returns (candidates: seq<Candidate>)
    ensures candidates == WalkPhase(root)
  {
    var visit := Visit(root);
    candidates := [];
    var i := 0;
    while i < |visit|
      invariant 0 <= i <= |visit|
      invariant |candidates| < WalkCap
      invariant Scan(root, visit[i..], candidates, WalkCap) == WalkPhase(root)
    {
      assert visit[i..][0] == visit[i] && visit[i..][1..] == visit[i + 1..];
      candidates := AddCandidate(root, candidates, visit[i]);
      i := i + 1;
      if |candidates| >= WalkCap {
        break;
      }
    }
  }

  /** The `<p>` fallback loop: every paragraph is offered. */
  method FallbackLoop(root: Element) returns (candidates: seq<Candidate>)
    ensures candidates == Fallback(root)
  {
    var paragraphs := Paragraphs(root);
    candidates := [];
    var j := 0;
    while j < |paragraphs|
      invariant 0 <= j <= |paragraphs|
      invariant AddEach(root, paragraphs[j..], candidates) == Fallback(root)
    {
      assert paragraphs[j..][0] == paragraphs[j] && paragraphs[j..][1..] == paragraphs[j + 1..];
      candidates := AddCandidate(root, candidates, paragraphs[j]);
      j := j + 1;
    }
  }

  /** The loop that turns the first (at most 30) candidates into numbered blocks. */
  method NumberBlocks(htmlId: string, root: Element, candidates: seq<Candidate>) returns (blocks: seq<Block>)
    requires PathsValid(root, candidates)
    ensures blocks == BuildBlocks(htmlId, root, candidates)
  {
    ghost var target := BuildBlocks(htmlId, root, candidates);
    BuildBlocksFacts(htmlId, root, candidates);
    blocks := [];
    var k := 0;
    while k < |candidates| && |blocks| < BlockCap
      invariant 0 <= k <= |target| && |blocks| == k
      invariant blocks == target[..k]
    {
      var entry := candidates[k];
      var selector := Describe(htmlId, root, entry.path);
      assert target[k] == Block(BlockId(k + 1), selector, entry.text);
      blocks := blocks + [Block(BlockId(k + 1), selector, entry.text)];
      k := k + 1;
    }
    assert blocks == target;
  }
}
