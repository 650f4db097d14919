/** Selection of the article blocks with the help of a language model: the stable
    length-descending ranking, the preview prompt, locating the JSON object in the reply,
    gathering the chosen ids from its envelope and resolving them against the blocks,
    with the top-5 fallback on every failure. The model's reply and the JSON parser are
    inputs. */
module BlockFilter {
  import opened Wrappers
  import opened Text
  import opened Records
  import opened Extractor

  /** A parsed JSON value. Numbers are kept abstract: they never equal a block id. */
  datatype Json = JNull | JBool(b: bool) | JNum(n: int) | JStr(s: string) | JArr(items: seq<Json>) | JObj(fields: map<string, Json>)

  /** How many blocks the fallback keeps, and how many the prompt shows. */
  const FallbackCount := 5
  const PreviewCount := 10
  const SnippetLength := 500

  // ---------------------------------------------------------------------------
  // Stable ranking by text length, longest first

  function Lengths(blocks: seq<Block>): (r: seq<nat>)
    ensures |r| == |blocks| && forall i :: 0 <= i < |r| ==> r[i] == |blocks[i].text|
  {
    seq(|blocks|, i requires 0 <= i < |blocks| => |blocks[i].text|)
  }

  /** Index `a` is ranked before index `b`: a longer text, or an equally long one that
      came first (`sorted(..., reverse=True)` keeps equal keys in their original order). */
  predicate Before(lens: seq<nat>, a: nat, b: nat)
    requires a < |lens| && b < |lens|
  {
    lens[a] > lens[b] || (lens[a] == lens[b] && a < b)
  }

  predicate Ranked(lens: seq<nat>, r: seq<nat>) {
    && (forall i :: 0 <= i < |r| ==> r[i] < |lens|)
    && (forall i, j :: 0 <= i < j < |r| ==> Before(lens, r[i], r[j]))
  }

  /** Insert index `j` after every index ranked before it. */
  function Insert(lens: seq<nat>, r: seq<nat>, j: nat): (q: seq<nat>)
    requires j < |lens| && forall i :: 0 <= i < |r| ==> r[i] < j
    ensures |q| == |r| + 1 && multiset(q) == multiset(r) + multiset{j}
    ensures forall i :: 0 <= i < |q| ==> q[i] < |lens|
    ensures Ranked(lens, r) ==> Ranked(lens, q)
  {
    if r == [] then [j]
    else if Before(lens, r[0], j) then
      var rest := Insert(lens, r[1..], j);
      InsertAfter(lens, r, j, rest);
      [r[0]] + rest
    else
      InsertFront(lens, r, j);
      [j] + r
  }

  /** The first index stays in front when `j` goes further back. */
  lemma InsertAfter(lens: seq<nat>, r: seq<nat>, j: nat, rest: seq<nat>)
    requires j < |lens| && r != [] && forall i :: 0 <= i < |r| ==> r[i] < j
    requires Before(lens, r[0], j)
    requires |rest| == |r| && multiset(rest) == multiset(r[1..]) + multiset{j}
    requires forall i :: 0 <= i < |rest| ==> rest[i] < |lens|
    requires Ranked(lens, r[1..]) ==> Ranked(lens, rest)
    ensures var q := [r[0]] + rest;
      && |q| == |r| + 1 && multiset(q) == multiset(r) + multiset{j}
      && (forall i :: 0 <= i < |q| ==> q[i] < |lens|)
      && (Ranked(lens, r) ==> Ranked(lens, q))
  {
    var q := [r[0]] + rest;
    assert r == [r[0]] + r[1..];
    assert multiset(q) == multiset(r) + multiset{j};
    ConsBelow(r[0], rest, |lens|);
    if Ranked(lens, r) {
      TailRanked(lens, r);
      HeadBeforeRest(lens, r, j, rest);
      ConsRanked(lens, r[0], rest);
    }
  }

  lemma ConsBelow(x: nat, s: seq<nat>, n: nat)
    requires x < n && forall i :: 0 <= i < |s| ==> s[i] < n
    ensures forall i :: 0 <= i < |[x] + s| ==> ([x] + s)[i] < n
  {
  }

  lemma TailRanked(lens: seq<nat>, r: seq<nat>)
    requires r != [] && Ranked(lens, r)
    ensures Ranked(lens, r[1..])
  {
    forall a, b | 0 <= a < b < |r[1..]| ensures Before(lens, r[1..][a], r[1..][b]) {
      assert r[1..][a] == r[a + 1] && r[1..][b] == r[b + 1];
    }
  }

  lemma HeadBeforeRest(lens: seq<nat>, r: seq<nat>, j: nat, rest: seq<nat>)
    requires j < |lens| && r != [] && Ranked(lens, r) && Before(lens, r[0], j)
    requires forall i :: 0 <= i < |rest| ==> rest[i] < |lens|
    requires multiset(rest) == multiset(r[1..]) + multiset{j}
    ensures forall i :: 0 <= i < |rest| ==> Before(lens, r[0], rest[i])
  {
    forall i | 0 <= i < |rest| ensures Before(lens, r[0], rest[i]) {
      assert rest[i] in multiset(rest);
      if rest[i] != j {
        assert rest[i] in multiset(r[1..]);
        var k :| 0 <= k < |r[1..]| && r[1..][k] == rest[i];
        assert r[k + 1] == rest[i];
      }
    }
  }

  lemma ConsRanked(lens: seq<nat>, x: nat, rest: seq<nat>)
    requires x < |lens| && Ranked(lens, rest)
    requires forall i :: 0 <= i < |rest| ==> Before(lens, x, rest[i])
    ensures Ranked(lens, [x] + rest)
  {
    var q := [x] + rest;
    forall a, b | 0 <= a < b < |q| ensures Before(lens, q[a], q[b]) {
      if a > 0 {
        assert q[a] == rest[a - 1] && q[b] == rest[b - 1];
      }
    }
  }

  /** `j` goes in front when the first index is not ranked before it. */
  lemma InsertFront(lens: seq<nat>, r: seq<nat>, j: nat)
    requires j < |lens| && r != [] && forall i :: 0 <= i < |r| ==> r[i] < j
    requires !Before(lens, r[0], j)
    ensures var q := [j] + r;
      && |q| == |r| + 1 && multiset(q) == multiset(r) + multiset{j}
      && (forall i :: 0 <= i < |q| ==> q[i] < |lens|)
      && (Ranked(lens, r) ==> Ranked(lens, q))
  {
    var q := [j] + r;
    assert forall i :: 0 <= i < |q| ==> q[i] < |lens| by {
      forall i | 0 <= i < |q| ensures q[i] < |lens| {
        if i > 0 { assert q[i] == r[i - 1]; }
      }
    }
    if Ranked(lens, r) {
      forall a, b | 0 <= a < b < |q| ensures Before(lens, q[a], q[b]) {
        if a == 0 {
          assert q[b] == r[b - 1];
          if b > 1 {
            assert Before(lens, r[0], r[b - 1]);
          }
        } else {
          assert q[a] == r[a - 1] && q[b] == r[b - 1];
        }
      }
    }
  }

  /** The ranking of the first `n` indices. */
  function Rank(lens: seq<nat>, n: nat): (r: seq<nat>)
    requires n <= |lens|
    ensures |r| == n && multiset(r) == multiset(Range(n))
    ensures Ranked(lens, r)
  {
    if n == 0 then []
    else
      var prev := Rank(lens, n - 1);
      RankStep(prev, n - 1);
      Insert(lens, prev, n - 1)
  }

  function Range(n: nat): (r: seq<nat>)
    ensures |r| == n && forall i :: 0 <= i < n ==> r[i] == i
  {
    seq(n, i requires 0 <= i < n => i)
  }

  /** A permutation of the first `m` indices holds only indices below `m`, and one more
      index extends it to the first `m + 1`. */
  lemma {:induction false} RankStep(prev: seq<nat>, m: nat)
    requires multiset(prev) == multiset(Range(m))
    ensures forall i :: 0 <= i < |prev| ==> prev[i] < m
    ensures multiset(Range(m + 1)) == multiset(Range(m)) + multiset{m}
  {
    forall i | 0 <= i < |prev| ensures prev[i] < m {
      assert prev[i] in multiset(prev);
      assert prev[i] in Range(m);
    }
    assert Range(m + 1) == Range(m) + [m];
  }

  /** The blocks in ranking order. */
  function Sorted(blocks: seq<Block>): (r: seq<Block>)
    ensures |r| == |blocks|
  {
    var order := Rank(Lengths(blocks), |blocks|);
    seq(|blocks|, i requires 0 <= i < |blocks| => blocks[order[i]])
  }

  /** The ranking is a permutation of the blocks, longest text first, equally long texts
      in their original order. */
  lemma {:induction false} SortedFacts(blocks: seq<Block>)
    ensures var order := Rank(Lengths(blocks), |blocks|);
      && multiset(order) == multiset(Range(|blocks|))
      && (forall k :: 0 <= k < |blocks| ==> k in order)
      && (forall i :: 0 <= i < |blocks| ==> Sorted(blocks)[i] == blocks[order[i]])
      && (forall i, j :: 0 <= i < j < |blocks| ==>
            |Sorted(blocks)[i].text| > |Sorted(blocks)[j].text|
            || (|Sorted(blocks)[i].text| == |Sorted(blocks)[j].text| && order[i] < order[j]))
  {
    var order := Rank(Lengths(blocks), |blocks|);
    forall k | 0 <= k < |blocks| ensures k in order {
      assert Range(|blocks|)[k] == k;
      assert k in multiset(Range(|blocks|));
    }
  }

  function Texts(blocks: seq<Block>): (r: seq<string>)
    ensures |r| == |blocks| && forall i :: 0 <= i < |r| ==> r[i] == blocks[i].text
  {
    seq(|blocks|, i requires 0 <= i < |blocks| => blocks[i].text)
  }

  /** The texts of the five highest-ranked blocks. */
  function FallbackTexts(blocks: seq<Block>): (r: seq<string>)
    ensures |r| == (if |blocks| < FallbackCount then |blocks| else FallbackCount)
  {
    Texts(Prefix(Sorted(blocks), FallbackCount))
  }

  /** The fallback keeps min(5, n) texts, in ranking order: the longest, and among equally
      long ones those that came first; every text it keeps belongs to an input block. */
  lemma {:induction false} FallbackFacts(blocks: seq<Block>)
    ensures var f := FallbackTexts(blocks);
      && |f| == (if |blocks| < FallbackCount then |blocks| else FallbackCount)
      && (forall i :: 0 <= i < |f| ==> f[i] == Sorted(blocks)[i].text)
      && (forall i :: 0 <= i < |f| ==> exists k :: 0 <= k < |blocks| && f[i] == blocks[k].text)
      && (forall i, j :: 0 <= i < j < |f| ==> |f[i]| >= |f[j]|)
  {
    SortedFacts(blocks);
    var order := Rank(Lengths(blocks), |blocks|);
    var f := FallbackTexts(blocks);
    forall i | 0 <= i < |f| ensures exists k :: 0 <= k < |blocks| && f[i] == blocks[k].text {
      assert f[i] == blocks[order[i]].text;
    }
  }

  // ---------------------------------------------------------------------------
  // The prompt

  datatype Preview = Preview(id: string, selector: string, snippet: string)

  /** At most 500 characters of the text, with line feeds turned into spaces. */
  function MakePreview(b: Block): (p: Preview)
    ensures p.id == b.id && p.selector == b.selector
    ensures |p.snippet| == (if |b.text| < SnippetLength then |b.text| else SnippetLength)
    ensures '\n' !in p.snippet
    ensures forall i :: 0 <= i < |p.snippet| ==> p.snippet[i] == (if b.text[i] == '\n' then ' ' else b.text[i])
  {
    Preview(b.id, b.selector, Prefix(ReplaceChar(b.text, '\n', ' '), SnippetLength))
  }

  function PreviewLine(p: Preview): string {
    p.id + " | " + p.selector + "\n" + p.snippet
  }

  /** The block listing of the prompt: the ten highest-ranked blocks. */
  function Payload(blocks: seq<Block>): string {
    var shown := Prefix(Sorted(blocks), PreviewCount);
    Join(seq(|shown|, i requires 0 <= i < |shown| => PreviewLine(MakePreview(shown[i]))), "\n\n")
  }

  /** What is sent to the model: the model name, the temperature (0.2, kept in tenths),
      the token limit, the article title (`unknown` when it is falsy) and the block
      listing. The fixed instruction wording around them is not modelled. */
  datatype Request = Request(model: string, temperatureTenths: nat, maxTokens: nat, title: string, payload: string)

  function MakeRequest(title: Val, blocks: seq<Block>): (r: Request)
    ensures r.title == (if Truthy(title) then Render(title) else "unknown")
  {
    Request("llama3", 2, 800, Render(Or(title, VStr("unknown"))), Payload(blocks))
  }

  // ---------------------------------------------------------------------------
  // Reading the reply

  /** The text from the first `{` to the last `}` of the (stripped) reply, or `None` when
      either is missing (the code raises a decoding error and falls back). When the last
      `}` precedes the first `{` the text is empty, which no parser accepts. */
  function Locate(output: string): (r: Option<string>)
    ensures r.None? <==> ('{' !in output || '}' !in output)
    ensures r.Some? ==> r.value == Slice(output, Find(output, '{') as nat, RFind(output, '}') as nat + 1)
  {
    var start := Find(output, '{');
    var end := RFind(output, '}');
    if start == -1 || end == -1 then None else Some(Slice(output, start as nat, end as nat + 1))
  }

  /** A located object starts with `{` and ends with `}` whenever it is not empty. */
  lemma {:induction false} LocateBraces(output: string)
    requires Locate(output).Some? && Locate(output).value != ""
    ensures var t := Locate(output).value; t[0] == '{' && t[|t| - 1] == '}'
  {
    var start := Find(output, '{');
    var end := RFind(output, '}');
    assert start as nat < end as nat + 1;
    assert Locate(output).value == output[start..end + 1];
  }

  /** The parsed object, or `None` when the request failed, no object was found, or the
      parser refused it. Text that starts with `{` parses, if at all, to an object. */
  function Verdict(reply: Option<string>, loads: string -> Option<map<string, Json>>): Option<map<string, Json>> {
    match reply
    case None => None
    case Some(text) =>
      match Locate(Strip(text))
      case None => None
      case Some(candidate) => loads(candidate)
  }

  // ---------------------------------------------------------------------------
  // Gathering ids

  const EnvelopeKeys: seq<string> := ["selected", "keep", "blocks"]

  /** The ids one list item yields: a string is an id, an object yields its `id` field. */
  function ItemIds(item: Json): (r: seq<Json>)
    ensures |r| <= 1
  {
    match item
    case JStr(_) => [item]
    case JObj(fields) => if "id" in fields then [fields["id"]] else []
    case _ => []
  }

  function ListIds(items: seq<Json>): seq<Json>
    decreases |items|
  {
    if items == [] then [] else ItemIds(items[0]) + ListIds(items[1..])
  }

  /** The ids under one key: only a list value yields any. */
  function KeyIds(parsed: map<string, Json>, key: string): seq<Json> {
    if key in parsed && parsed[key].JArr? then ListIds(parsed[key].items) else []
  }

  /** The key loop of the code: add each list key's ids; stop after a list key once any id
      has been gathered. */
  function Gather(parsed: map<string, Json>, keys: seq<string>, acc: seq<Json>): seq<Json>
    decreases |keys|
  {
    if keys == [] then acc
    else if keys[0] in parsed && parsed[keys[0]].JArr? then
      var next := acc + ListIds(parsed[keys[0]].items);
      if next != [] then next else Gather(parsed, keys[1..], next)
    else Gather(parsed, keys[1..], acc)
  }

  function SelectedIds(parsed: map<string, Json>): seq<Json> {
    Gather(parsed, EnvelopeKeys, [])
  }

  /** The ids are those of the first key whose list yields any; the keys before it yield
      none, and when no key yields one the selection is empty. */
  lemma {:induction false} GatherFirstYielding(parsed: map<string, Json>, keys: seq<string>)
    ensures var r := Gather(parsed, keys, []);
      && (r == [] <==> forall k :: 0 <= k < |keys| ==> KeyIds(parsed, keys[k]) == [])
      && (r != [] ==> exists k :: 0 <= k < |keys| && r == KeyIds(parsed, keys[k])
                                 && forall m :: 0 <= m < k ==> KeyIds(parsed, keys[m]) == [])
    decreases |keys|
  {
    if keys != [] {
      GatherFirstYielding(parsed, keys[1..]);
      GatherStep(parsed, keys);
      if KeyIds(parsed, keys[0]) == [] {
        var r := Gather(parsed, keys[1..], []);
        if r != [] {
          var k :| 0 <= k < |keys[1..]| && r == KeyIds(parsed, keys[1..][k])
                   && forall m :: 0 <= m < k ==> KeyIds(parsed, keys[1..][m]) == [];
          NoneShift(parsed, keys, k);
          assert r == KeyIds(parsed, keys[k + 1]);
        } else {
          NoneShift(parsed, keys, |keys| - 1);
        }
      }
    }
  }

  /** One turn of the key loop, starting with nothing gathered. */
  lemma GatherStep(parsed: map<string, Json>, keys: seq<string>)
    requires keys != []
    ensures Gather(parsed, keys, []) ==
      if KeyIds(parsed, keys[0]) != [] then KeyIds(parsed, keys[0]) else Gather(parsed, keys[1..], [])
  {
    if keys[0] in parsed && parsed[keys[0]].JArr? {
      assert [] + KeyIds(parsed, keys[0]) == KeyIds(parsed, keys[0]);
    }
  }

  /** A key yielding nothing in front of keys yielding nothing. */
  lemma NoneShift(parsed: map<string, Json>, keys: seq<string>, k: nat)
    requires k < |keys| && KeyIds(parsed, keys[0]) == []
    requires forall m :: 0 <= m < k ==> KeyIds(parsed, keys[1..][m]) == []
    ensures forall m :: 0 <= m < k + 1 ==> KeyIds(parsed, keys[m]) == []
  {
    forall m | 0 <= m < k + 1 ensures KeyIds(parsed, keys[m]) == [] {
      if m > 0 { assert keys[m] == keys[1..][m - 1]; }
    }
  }

  /** The nested loop that fills `selected_ids`. */
  method GatherIds(parsed: map<string, Json>) returns (ids: seq<Json>)
    ensures ids == SelectedIds(parsed)
  {
    ids := [];
    var k := 0;
    while k < |EnvelopeKeys|
      invariant 0 <= k <= |EnvelopeKeys|
      invariant Gather(parsed, EnvelopeKeys[k..], ids) == SelectedIds(parsed)
    {
      var key := EnvelopeKeys[k];
      assert EnvelopeKeys[k..][0] == key && EnvelopeKeys[k..][1..] == EnvelopeKeys[k + 1..];
      if key in parsed && parsed[key].JArr? {
        ids := AppendIds(parsed[key].items, ids);
        if ids != [] {
          return;
        }
      }
      k := k + 1;
    }
  }

  /** The inner loop: each list item's ids are appended in order. */
  method AppendIds(items: seq<Json>, ids0: seq<Json>) returns (ids: seq<Json>)
    ensures ids == ids0 + ListIds(items)
  {
    ids := ids0;
    var i := 0;
    while i < |items|
      invariant 0 <= i <= |items|
      invariant ids == ids0 + ListIds(items[..i])
    {
      ListIdsSnoc(items, i);
      var item := items[i];
      if item.JStr? {
        ids := ids + [item];
      } else if item.JObj? && "id" in item.fields {
        ids := ids + [item.fields["id"]];
      }
      i := i + 1;
    }
    assert items[..i] == items;
  }

  lemma {:induction false} ListIdsSnoc(items: seq<Json>, i: nat)
    requires i < |items|
    ensures ListIds(items[..i + 1]) == ListIds(items[..i]) + ItemIds(items[i])
    decreases i
  {
    if i == 0 {
      assert items[..1] == [items[0]];
      assert items[..1][1..] == [];
    } else {
      var tail := items[1..];
      ListIdsSnoc(tail, i - 1);
      assert items[..i + 1][1..] == tail[..i];
      assert items[..i][1..] == tail[..i - 1];
      assert tail[i - 1] == items[i];
    }
  }

  // ---------------------------------------------------------------------------
  // Resolving ids

  /** `set(selected_ids)` needs every id to be hashable: a list or an object is not. */
  predicate Unhashable(j: Json) { j.JArr? || j.JObj? }

  /** The `TypeError` message for the first unhashable id, if any. */
  function HashError(ids: seq<Json>): (r: Option<string>)
    ensures r.None? <==> forall i :: 0 <= i < |ids| ==> !Unhashable(ids[i])
  {
    if ids == [] then None
    else if ids[0].JArr? then Some("unhashable type: 'list'")
    else if ids[0].JObj? then Some("unhashable type: 'dict'")
    else
      var rest := HashError(ids[1..]);
      assert forall i :: 1 <= i < |ids| ==> ids[i] == ids[1..][i - 1];
      rest
  }

  /** A block is chosen when its id, a string, is among the ids. */
  predicate Chosen(ids: seq<Json>, b: Block) { JStr(b.id) in ids }

  /** The texts of the chosen blocks, in block order. */
  function Resolve(blocks: seq<Block>, ids: seq<Json>): seq<string>
    decreases |blocks|
  {
    if blocks == [] then []
    else
      var last := blocks[|blocks| - 1];
      Resolve(blocks[..|blocks| - 1], ids) + (if Chosen(ids, last) then [last.text] else [])
  }

  /** The indices of the chosen blocks, ascending. */
  function ChosenIndices(blocks: seq<Block>, ids: seq<Json>): seq<nat>
    decreases |blocks|
  {
    if blocks == [] then []
    else
      var n := |blocks| - 1;
      ChosenIndices(blocks[..n], ids) + (if Chosen(ids, blocks[n]) then [n] else [])
  }

  /** The resolved texts are exactly those of the chosen blocks, in their original order:
      a subsequence of the block texts picked out by strictly increasing indices. */
  lemma {:induction false} ResolveFacts(blocks: seq<Block>, ids: seq<Json>)
    ensures var ix := ChosenIndices(blocks, ids); var r := Resolve(blocks, ids);
      && |r| == |ix|
      && (forall k :: 0 <= k < |ix| ==> ix[k] < |blocks| && r[k] == blocks[ix[k]].text)
      && (forall k, m :: 0 <= k < m < |ix| ==> ix[k] < ix[m])
      && (forall i :: 0 <= i < |blocks| ==> (i in ix <==> Chosen(ids, blocks[i])))
    decreases |blocks|
  {
    if blocks != [] {
      var n := |blocks| - 1;
      ResolveFacts(blocks[..n], ids);
      ResolveSnoc(blocks, ids, ChosenIndices(blocks[..n], ids), Resolve(blocks[..n], ids));
    }
  }

  /** The facts of `ResolveFacts` carry over from all blocks but the last to all blocks. */
  lemma ResolveSnoc(blocks: seq<Block>, ids: seq<Json>, ix0: seq<nat>, r0: seq<string>)
    requires blocks != []
    requires var front := blocks[..|blocks| - 1];
      && |r0| == |ix0|
      && (forall k :: 0 <= k < |ix0| ==> ix0[k] < |front| && r0[k] == front[ix0[k]].text)
      && (forall k, m :: 0 <= k < m < |ix0| ==> ix0[k] < ix0[m])
      && (forall i :: 0 <= i < |front| ==> (i in ix0 <==> Chosen(ids, front[i])))
    ensures var n := |blocks| - 1; var c := Chosen(ids, blocks[n]);
      var ix := ix0 + (if c then [n] else []); var r := r0 + (if c then [blocks[n].text] else []);
      && |r| == |ix|
      && (forall k :: 0 <= k < |ix| ==> ix[k] < |blocks| && r[k] == blocks[ix[k]].text)
      && (forall k, m :: 0 <= k < m < |ix| ==> ix[k] < ix[m])
      && (forall i :: 0 <= i < |blocks| ==> (i in ix <==> Chosen(ids, blocks[i])))
  {
    var n := |blocks| - 1;
    var front := blocks[..n];
    var c := Chosen(ids, blocks[n]);
    var ix := ix0 + (if c then [n] else []);
    var r := r0 + (if c then [blocks[n].text] else []);
    forall k | 0 <= k < |ix0| ensures ix[k] < |blocks| && r[k] == blocks[ix[k]].text {
      assert front[ix0[k]] == blocks[ix0[k]];
    }
    forall i | 0 <= i < |blocks| ensures (i in ix <==> Chosen(ids, blocks[i])) {
      if i < n {
        assert front[i] == blocks[i];
        assert n !in ix0;
      }
    }
  }

  lemma {:induction false} NoneChosen(blocks: seq<Block>, ids: seq<Json>)
    requires forall i :: 0 <= i < |blocks| ==> !Chosen(ids, blocks[i])
    ensures Resolve(blocks, ids) == []
    decreases |blocks|
  {
    if blocks != [] {
      var front := blocks[..|blocks| - 1];
      assert forall i :: 0 <= i < |front| ==> front[i] == blocks[i];
      NoneChosen(front, ids);
    }
  }

  // ---------------------------------------------------------------------------
  // The whole selection

  /** `_filter_blocks_with_llm`: `Err` is the `TypeError` that escapes when an id cannot
      be put in a set; every other failure falls back to the five highest-ranked texts. */
  function FilterBlocks(blocks: seq<Block>, hasClient: bool, title: Val,
                        llm: Request -> Option<string>, loads: string -> Option<map<string, Json>>): Result<seq<string>>
  {
    if blocks == [] then Ok([])
    else if !hasClient then Ok(FallbackTexts(blocks))
    else Decide(blocks, Verdict(llm(MakeRequest(title, blocks)), loads))
  }

  /** What follows the request: resolve a parsed verdict, or fall back. */
  function Decide(blocks: seq<Block>, verdict: Option<map<string, Json>>): Result<seq<string>> {
    match verdict
    case None => Ok(FallbackTexts(blocks))
    case Some(parsed) =>
      var ids := SelectedIds(parsed);
      match HashError(ids)
      case Some(message) => Err(message)
      case None =>
        var filtered := Resolve(blocks, ids);
        if filtered == [] then Ok(FallbackTexts(blocks)) else Ok(filtered)
  }

  /** Without a verdict, or when no block is chosen, the result is the fallback; with a
      verdict that chooses some block and has only hashable ids, it is the chosen blocks'
      texts in the original block order; an unhashable id is the only error. */
  lemma {:induction false} DecideFacts(blocks: seq<Block>, verdict: Option<map<string, Json>>)
    ensures verdict.None? ==> Decide(blocks, verdict) == Ok(FallbackTexts(blocks))
    ensures blocks != [] && Decide(blocks, verdict).Ok? ==> Decide(blocks, verdict).value != []
    ensures Decide(blocks, verdict).Err? <==> verdict.Some? && HashError(SelectedIds(verdict.value)).Some?
    ensures verdict.Some? && HashError(SelectedIds(verdict.value)).None?
            && (forall i :: 0 <= i < |blocks| ==> !Chosen(SelectedIds(verdict.value), blocks[i]))
            ==> Decide(blocks, verdict) == Ok(FallbackTexts(blocks))
    ensures verdict.Some? && HashError(SelectedIds(verdict.value)).None?
            && (exists i :: 0 <= i < |blocks| && Chosen(SelectedIds(verdict.value), blocks[i]))
            ==> Decide(blocks, verdict) == Ok(Resolve(blocks, SelectedIds(verdict.value)))
    ensures verdict.Some? ==>
            var ids := SelectedIds(verdict.value);
            var ix := ChosenIndices(blocks, ids);
            var r := Resolve(blocks, ids);
            && |r| == |ix|
            && (forall k :: 0 <= k < |ix| ==> ix[k] < |blocks| && r[k] == blocks[ix[k]].text)
            && (forall k, m :: 0 <= k < m < |ix| ==> ix[k] < ix[m])
            && (forall i :: 0 <= i < |blocks| ==> (i in ix <==> Chosen(ids, blocks[i])))
  {
    if verdict.Some? {
      var ids := SelectedIds(verdict.value);
      ResolveFacts(blocks, ids);
      var ix := ChosenIndices(blocks, ids);
      if exists i :: 0 <= i < |blocks| && Chosen(ids, blocks[i]) {
        var i :| 0 <= i < |blocks| && Chosen(ids, blocks[i]);
        assert i in ix;
        assert |Resolve(blocks, ids)| > 0;
      } else {
        NoneChosen(blocks, ids);
      }
    }
  }

  /** Empty input gives an empty result; without a client the result is the fallback; and
      any non-empty input gives a non-empty result unless an id is unhashable. */
  lemma {:induction false} FilterNonEmpty(blocks: seq<Block>, hasClient: bool, title: Val,
                       llm: Request -> Option<string>, loads: string -> Option<map<string, Json>>)
    ensures blocks == [] ==> FilterBlocks(blocks, hasClient, title, llm, loads) == Ok([])
    ensures blocks != [] && !hasClient ==> FilterBlocks(blocks, hasClient, title, llm, loads) == Ok(FallbackTexts(blocks))
    ensures blocks != [] && FilterBlocks(blocks, hasClient, title, llm, loads).Ok? ==>
              FilterBlocks(blocks, hasClient, title, llm, loads).value != []
  {
    if blocks != [] {
      if hasClient {
        var v := Verdict(llm(MakeRequest(title, blocks)), loads);
        assert FilterBlocks(blocks, hasClient, title, llm, loads) == Decide(blocks, v);
        DecideFacts(blocks, v);
      }
    }
  }

  /** A failed request, a reply without an object, or one the parser refuses all give the
      fallback. */
  lemma {:induction false} FailedReplyFallsBack(blocks: seq<Block>, reply: Option<string>, loads: string -> Option<map<string, Json>>)
    requires reply.None? || Locate(Strip(reply.value)).None? || loads(Locate(Strip(reply.value)).value).None?
    ensures Decide(blocks, Verdict(reply, loads)) == Ok(FallbackTexts(blocks))
  {
  }

  /** The verdict's ids never name a block through a number, a boolean or null: only a
      string id equal to the block's id chooses it. */
  lemma {:induction false} ChosenOnlyByString(ids: seq<Json>, b: Block)
    requires Chosen(ids, b)
    ensures exists i :: 0 <= i < |ids| && ids[i].JStr? && ids[i].s == b.id
  {
    var i :| 0 <= i < |ids| && ids[i] == JStr(b.id);
  }
}
