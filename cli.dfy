/** The command-line driver: boolean words and environment defaults, the normalisation
    of the parsed arguments, the Markdown task preview, the task limit, and the loops
    that scrape every task and then add every result to the report. */
module Cli {
  import opened Wrappers
  import opened Text
  import opened Records
  import opened ReportWriter
  import Scraper
  import TaskParser

  // ---------------------------------------------------------------------------
  // Boolean words (`_str_to_bool`, `_env_bool`)
  // ---------------------------------------------------------------------------

  /** An argument value handed to `_str_to_bool`: already a boolean, or text. */
  datatype FlagValue = Flag(b: bool) | Word(s: string)

  const TrueWords: seq<string> := ["1", "true", "t", "yes", "y", "on"]
  const FalseWords: seq<string> := ["0", "false", "f", "no", "n", "off"]

  /** The word a text value is compared by: stripped, then lower-cased. */
  function Normalised(s: string): string { Lower(Strip(s)) }

  /** `_str_to_bool`: booleans pass through; a word of either list maps to its value;
      anything else is the `ArgumentTypeError`. */
  function StrToBool(v: FlagValue): (r: Result<bool>)
    ensures v.Flag? ==> r == Ok(v.b)
    ensures v.Word? ==> (r == Ok(true) <==> Normalised(v.s) in TrueWords)
    ensures v.Word? ==> (r == Ok(false) <==> Normalised(v.s) in FalseWords)
    ensures v.Word? ==> (r.Err? <==> Normalised(v.s) !in TrueWords + FalseWords)
  {
    match v
    case Flag(b) => Ok(b)
    case Word(s) => WordValue(Normalised(s))
  }

  /** The comparisons of `_str_to_bool`, on the normalised word. */
  function WordValue(lowered: string): (r: Result<bool>)
    ensures r == Ok(true) <==> lowered in TrueWords
    ensures r == Ok(false) <==> lowered in FalseWords
    ensures r.Err? <==> lowered !in TrueWords + FalseWords
  {
    if lowered in TrueWords then Ok(true)
    else if lowered in FalseWords then Ok(false)
    else Err("boolean value expected")
  }

  /** No word means both true and false. */
  lemma WordsDisjoint()
    ensures forall w :: w in TrueWords ==> w !in FalseWords
  {
  }

  /** Lower-case letters and digits are their own normal form. */
  predicate PlainChar(c: char) { 'a' <= c <= 'z' || '0' <= c <= '9' }

  lemma PlainNormal(w: string)
    requires forall i :: 0 <= i < |w| ==> PlainChar(w[i])
    ensures Normalised(w) == w
  {
    assert w != [] ==> !PySpace(w[0]) && !PySpace(w[|w| - 1]);
    TrimStripped(w, PySpace);
    assert forall i :: 0 <= i < |w| ==> LowerChar(w[i]) == w[i];
  }

  /** Every listed word is already in normal form, so each one is accepted as written. */
  lemma WordsAccepted()
    ensures forall k :: 0 <= k < |TrueWords| ==> StrToBool(Word(TrueWords[k])) == Ok(true)
    ensures forall k :: 0 <= k < |FalseWords| ==> StrToBool(Word(FalseWords[k])) == Ok(false)
  {
    forall k | 0 <= k < |TrueWords|
      ensures Normalised(TrueWords[k]) == TrueWords[k]
    {
      PlainNormal(TrueWords[k]);
    }
    forall k | 0 <= k < |FalseWords|
      ensures Normalised(FalseWords[k]) == FalseWords[k]
    {
      PlainNormal(FalseWords[k]);
    }
  }

  /** Case does not matter: lower-casing the argument first changes nothing. */
  lemma StrToBoolCaseless(s: string)
    ensures StrToBool(Word(Lower(s))) == StrToBool(Word(s))
  {
    StripLower(s);
    LowerIdempotent(Strip(s));
  }

  /** `_env_bool`: the default when the variable is unset or not a boolean word, the
      word's value otherwise. */
  function EnvBool(env: map<string, string>, name: string, default: bool): (r: bool)
    ensures name !in env ==> r == default
    ensures name in env && Normalised(env[name]) in TrueWords ==> r
    ensures name in env && Normalised(env[name]) in FalseWords ==> !r
    ensures name in env && Normalised(env[name]) !in TrueWords + FalseWords ==> r == default
  {
    if name !in env then default
    else
      match StrToBool(Word(env[name]))
      case Ok(b) => b
      case Err(_) => default
  }

  // ---------------------------------------------------------------------------
  // Argument normalisation (the tail of `parse_args`)
  // ---------------------------------------------------------------------------

  const DefaultLlmBaseUrl: string := "http://localhost:11434/v1"

  /** The parsed arguments the normalisation looks at. */
  datatype Options = Options(
    headless: bool, usePyautogui: bool, useLocalLlm: bool, llmBaseUrl: Option<string>,
    userDataDir: Option<string>, extensionPath: Option<string>, extensionFlags: Option<seq<string>>)

  /** A path option that is set but names nothing on disk is dropped. */
  function ExistingPath(path: Option<string>, pathExists: string -> bool): (r: Option<string>)
    ensures Scraper.Given(r) ==> pathExists(r.value)
    ensures r == path || r == None
    ensures path.None? || path == Some("") || pathExists(path.value) ==> r == path
  {
    if Scraper.Given(path) && !pathExists(path.value) then None else path
  }

  /** The options after normalisation, one field at a time. */
  function NormaliseOptions(o: Options, pathExists: string -> bool): (r: Options)
    ensures r.usePyautogui == o.usePyautogui && r.useLocalLlm == o.useLocalLlm
    ensures r.usePyautogui ==> !r.headless
    ensures !o.usePyautogui ==> r.headless == o.headless
    ensures r.useLocalLlm ==> Scraper.Given(r.llmBaseUrl)
    ensures o.useLocalLlm && !Scraper.Given(o.llmBaseUrl) ==> r.llmBaseUrl == Some(DefaultLlmBaseUrl)
    ensures !o.useLocalLlm || Scraper.Given(o.llmBaseUrl) ==> r.llmBaseUrl == o.llmBaseUrl
    ensures Scraper.Given(r.userDataDir) ==> pathExists(r.userDataDir.value)
    ensures Scraper.Given(r.extensionPath) ==> pathExists(r.extensionPath.value)
    ensures r.extensionFlags == Some(o.extensionFlags.GetOr([]))
  {
    var withDir := ExistingPath(o.userDataDir, pathExists);
    var withExtension := ExistingPath(o.extensionPath, pathExists);
    var flags := Some(o.extensionFlags.GetOr([]));
    var headless := if o.usePyautogui && o.headless then false else o.headless;
    var baseUrl := if o.useLocalLlm && !Scraper.Given(o.llmBaseUrl) then Some(DefaultLlmBaseUrl) else o.llmBaseUrl;
    Options(headless, o.usePyautogui, o.useLocalLlm, baseUrl, withDir, withExtension, flags)
  }

  /** Normalising twice is normalising once. */
  lemma NormaliseIdempotent(o: Options, pathExists: string -> bool)
    ensures NormaliseOptions(NormaliseOptions(o, pathExists), pathExists) == NormaliseOptions(o, pathExists)
  {
  }

  /** The argument namespace, whose fields `parse_args` rewrites in place. */
  class Args {
    var headless: bool
    var usePyautogui: bool
    var useLocalLlm: bool
    var llmBaseUrl: Option<string>
    var userDataDir: Option<string>
    var extensionPath: Option<string>
    var extensionFlags: Option<seq<string>>

    constructor (o: Options)
      ensures Values() == o
    {
      headless := o.headless;
      usePyautogui := o.usePyautogui;
      useLocalLlm := o.useLocalLlm;
      llmBaseUrl := o.llmBaseUrl;
      userDataDir := o.userDataDir;
      extensionPath := o.extensionPath;
      extensionFlags := o.extensionFlags;
    }

    function Values(): Options
      reads this
    {
      Options(headless, usePyautogui, useLocalLlm, llmBaseUrl, userDataDir, extensionPath, extensionFlags)
    }

    /** The normalisation steps, in the order `parse_args` performs them. */
    method Normalise(pathExists: string -> bool)
      modifies this
      ensures Values() == NormaliseOptions(old(Values()), pathExists)
    {
      if Scraper.Given(userDataDir) && !pathExists(userDataDir.value) {
        userDataDir := None;
      }
      if Scraper.Given(extensionPath) && !pathExists(extensionPath.value) {
        extensionPath := None;
      }
      extensionFlags := Some(extensionFlags.GetOr([]));
      if usePyautogui && headless {
        headless := false;
      }
      if useLocalLlm && !Scraper.Given(llmBaseUrl) {
        llmBaseUrl := Some(DefaultLlmBaseUrl);
      }
    }
  }

  // ---------------------------------------------------------------------------
  // The task preview (`write_task_preview`)
  // ---------------------------------------------------------------------------

  const PreviewHeader: seq<string> := ["# Task Preview", ""]
  const HeadingMark: string := "## "
  const SnippetLabel: string := "- **Snippet:** "

  /** The f-string text of `task.get(key, default)`. */
  function FieldText(task: Entry, key: string, default: string): (r: string)
    ensures key !in task ==> r == default
    ensures key in task ==> r == Render(task[key])
  {
    Render(GetOr(task, key, VStr(default)))
  }

  /** `task.get("original_snippet", "")`, on which `.strip()` is called. */
  function SnippetValue(task: Entry): Val { GetOr(task, "original_snippet", VStr("")) }

  /** `.strip()` needs a string: every task's snippet value is one. */
  predicate Previewable(tasks: seq<Entry>) {
    forall k :: 0 <= k < |tasks| ==> SnippetValue(tasks[k]).VStr?
  }

  function SnippetOf(task: Entry): string
    requires SnippetValue(task).VStr?
  {
    Strip(SnippetValue(task).s)
  }

  function Heading(index: nat, task: Entry): string {
    HeadingMark + Decimal(index) + ". " + FieldText(task, "title", "Untitled")
  }

  /** The lines of a group with the given heading and field texts. */
  function GroupLines(heading: string, date: string, source: string, snippet: string, url: string): seq<string> {
    [heading, "- **Date:** " + date, "- **Source:** " + source]
    + (if snippet != "" then [SnippetLabel + snippet] else [])
    + ["- **URL:** " + url, ""]
  }

  /** The lines of one task's group; `index` counts from 1. */
  function TaskLines(index: nat, task: Entry): seq<string>
    requires SnippetValue(task).VStr?
  {
    GroupLines(Heading(index, task), FieldText(task, "date", "Unknown Date"),
               FieldText(task, "source", "Unknown Source"), SnippetOf(task), FieldText(task, "url", "No URL"))
  }

  /** The groups of all tasks, numbered by position. */
  function Groups(tasks: seq<Entry>): seq<string>
    requires Previewable(tasks)
    decreases |tasks|
  {
    if tasks == [] then []
    else Groups(tasks[..|tasks| - 1]) + TaskLines(|tasks|, tasks[|tasks| - 1])
  }

  function PreviewLines(tasks: seq<Entry>): seq<string>
    requires Previewable(tasks)
  {
    PreviewHeader + Groups(tasks)
  }

  /** `write_task_preview`: nothing is written for no tasks; otherwise the file's text is
      the preview lines joined by newlines. */
  method WriteTaskPreview(tasks: seq<Entry>) returns (written: Option<string>)
    requires Previewable(tasks)
    ensures tasks == [] ==> written == None
    ensures tasks != [] ==> written == Some(Join(PreviewLines(tasks), "\n"))
  {
    if tasks == [] {
      return None;
    }
    var lines := PreviewHeader;
    var i := 0;
    while i < |tasks|
      invariant 0 <= i <= |tasks|
      invariant lines == PreviewHeader + Groups(tasks[..i])
    {
      ghost var done := Groups(tasks[..i]);
      ghost var group := TaskLines(i + 1, tasks[i]);
      lines := AddTaskLines(lines, i + 1, tasks[i]);
      LinesAssoc(PreviewHeader, done, group);
      GroupsStep(tasks, i);
      i := i + 1;
    }
    assert tasks[..|tasks|] == tasks;
    written := Some(Join(lines, "\n"));
  }

  // A solver aid only: it keeps the proofs that use it within the verifier's budget.
  lemma LinesAssoc(a: seq<string>, b: seq<string>, c: seq<string>)
    ensures a + b + c == a + (b + c)
  {
  }

  lemma GroupsStep(tasks: seq<Entry>, i: nat)
    requires i < |tasks| && Previewable(tasks)
    ensures Groups(tasks[..i + 1]) == Groups(tasks[..i]) + TaskLines(i + 1, tasks[i])
  {
    assert tasks[..i + 1][..i] == tasks[..i];
  }

  /** The body of the preview loop: the group of `task`, whose heading number is `index`. */
  method AddTaskLines(lines0: seq<string>, index: nat, task: Entry) returns (lines: seq<string>)
    requires SnippetValue(task).VStr?
    ensures lines == lines0 + TaskLines(index, task)
  {
    lines := AddGroup(lines0, Heading(index, task), FieldText(task, "date", "Unknown Date"),
                      FieldText(task, "source", "Unknown Source"), Strip(SnippetValue(task).s),
                      FieldText(task, "url", "No URL"));
  }

  /** Extends `lines0` with the heading, date and source lines, the snippet line when the
      snippet is non-empty, the URL line and a blank line. */
  method AddGroup(lines0: seq<string>, heading: string, date: string, source: string, snippet: string, url: string)
    returns (lines: seq<string>)
    ensures lines == lines0 + GroupLines(heading, date, source, snippet, url)
  {
    var head := [heading, "- **Date:** " + date, "- **Source:** " + source];
    var tail := ["- **URL:** " + url, ""];
    if snippet != "" {
      lines := lines0 + head + [SnippetLabel + snippet];
      LinesAssoc(lines0 + head, [SnippetLabel + snippet], tail);
      LinesAssoc(lines0, head, [SnippetLabel + snippet] + tail);
      lines := lines + tail;
    } else {
      lines := lines0 + head;
      assert head + [] == head;
      LinesAssoc(lines0, head, tail);
      lines := lines + tail;
    }
  }

  /** The lines of `lines` that begin with `prefix`, in order. */
  function Starting(lines: seq<string>, prefix: string): (r: seq<string>)
    ensures forall i :: 0 <= i < |r| ==> prefix <= r[i]
    decreases |lines|
  {
    if lines == [] then []
    else
      var last := lines[|lines| - 1];
      Starting(lines[..|lines| - 1], prefix) + (if prefix <= last then [last] else [])
  }

  lemma {:induction false} StartingAppend(a: seq<string>, b: seq<string>, prefix: string)
    ensures Starting(a + b, prefix) == Starting(a, prefix) + Starting(b, prefix)
    decreases |b|
  {
    if b == [] {
      assert a + b == a;
    } else {
      assert (a + b)[..|a + b| - 1] == a + b[..|b| - 1];
      StartingAppend(a, b[..|b| - 1], prefix);
    }
  }

  lemma {:induction false} StartingNone(lines: seq<string>, prefix: string)
    requires forall i :: 0 <= i < |lines| ==> !(prefix <= lines[i])
    ensures Starting(lines, prefix) == []
    decreases |lines|
  {
    if lines != [] {
      StartingNone(lines[..|lines| - 1], prefix);
    }
  }

  /** Exactly one line, the `k`-th, begins with `prefix`. */
  lemma StartingOnly(lines: seq<string>, prefix: string, k: nat)
    requires k < |lines| && prefix <= lines[k]
    requires forall i :: 0 <= i < |lines| && i != k ==> !(prefix <= lines[i])
    ensures Starting(lines, prefix) == [lines[k]]
  {
    var a := lines[..k];
    var b := lines[k + 1..];
    assert lines == a + [lines[k]] + b;
    StartingAppend(a + [lines[k]], b, prefix);
    StartingAppend(a, [lines[k]], prefix);
    StartingNone(a, prefix);
    assert forall i :: 0 <= i < |b| ==> b[i] == lines[k + 1 + i];
    StartingNone(b, prefix);
    assert [lines[k]][..0] == [];
  }

  lemma Differs(prefix: string, s: string, i: nat)
    requires i < |prefix| && i < |s| && prefix[i] != s[i]
    ensures !(prefix <= s)
  {
  }

  /** Within one group, the heading is the only line that begins with "## ". */
  lemma GroupLinesHeading(heading: string, date: string, source: string, snippet: string, url: string)
    requires HeadingMark <= heading
    ensures Starting(GroupLines(heading, date, source, snippet, url), HeadingMark) == [heading]
  {
    var lines := GroupLines(heading, date, source, snippet, url);
    forall i | 1 <= i < |lines|
      ensures !(HeadingMark <= lines[i])
    {
      if lines[i] != "" {
        Differs(HeadingMark, lines[i], 0);
      }
    }
    StartingOnly(lines, HeadingMark, 0);
  }

  /** Within one group, a line begins with the snippet label exactly when the snippet is
      non-empty, and it is that snippet's line. */
  lemma GroupLinesSnippet(heading: string, date: string, source: string, snippet: string, url: string)
    requires heading != [] && heading[0] == '#'
    ensures Starting(GroupLines(heading, date, source, snippet, url), SnippetLabel)
            == if snippet != "" then [SnippetLabel + snippet] else []
  {
    var lines := GroupLines(heading, date, source, snippet, url);
    var k := if snippet != "" then 3 else |lines|;
    forall i | 0 <= i < |lines| && i != k
      ensures !(SnippetLabel <= lines[i])
    {
      if i == 0 {
        Differs(SnippetLabel, lines[i], 0);
      } else if lines[i] != "" {
        Differs(SnippetLabel, lines[i], 5);
      }
    }
    if k == 3 {
      StartingOnly(lines, SnippetLabel, 3);
    } else {
      StartingNone(lines, SnippetLabel);
    }
  }

  lemma GroupHeading(index: nat, task: Entry)
    requires SnippetValue(task).VStr?
    ensures Starting(TaskLines(index, task), HeadingMark) == [Heading(index, task)]
  {
    var rest := Decimal(index) + ". " + FieldText(task, "title", "Untitled");
    assert Heading(index, task) == HeadingMark + rest;
    GroupLinesHeading(Heading(index, task), FieldText(task, "date", "Unknown Date"),
                      FieldText(task, "source", "Unknown Source"), SnippetOf(task), FieldText(task, "url", "No URL"));
  }

  lemma GroupSnippet(index: nat, task: Entry)
    requires SnippetValue(task).VStr?
    ensures Starting(TaskLines(index, task), SnippetLabel)
            == if SnippetOf(task) != "" then [SnippetLabel + SnippetOf(task)] else []
  {
    var rest := Decimal(index) + ". " + FieldText(task, "title", "Untitled");
    assert Heading(index, task) == HeadingMark + rest;
    GroupLinesSnippet(Heading(index, task), FieldText(task, "date", "Unknown Date"),
                      FieldText(task, "source", "Unknown Source"), SnippetOf(task), FieldText(task, "url", "No URL"));
  }

  /** The headings of a preview of `tasks`, one per task, numbered from 1. */
  function Headings(tasks: seq<Entry>): (r: seq<string>)
    ensures |r| == |tasks|
  {
    seq(|tasks|, k requires 0 <= k < |tasks| => Heading(k + 1, tasks[k]))
  }

  /** The snippet lines a preview of `tasks` should hold: one per task whose stripped
      snippet is non-empty, in task order. */
  function SnippetLines(tasks: seq<Entry>): seq<string>
    requires Previewable(tasks)
    decreases |tasks|
  {
    if tasks == [] then []
    else
      var last := tasks[|tasks| - 1];
      SnippetLines(tasks[..|tasks| - 1]) + (if SnippetOf(last) != "" then [SnippetLabel + SnippetOf(last)] else [])
  }

  lemma HeadingsStep(tasks: seq<Entry>)
    requires tasks != []
    ensures Headings(tasks) == Headings(tasks[..|tasks| - 1]) + [Heading(|tasks|, tasks[|tasks| - 1])]
  {
  }

  /** The heading lines of the groups are exactly the tasks' headings, in order: one
      group per task, numbered from 1. */
  lemma {:induction false} GroupsHeadings(tasks: seq<Entry>)
    requires Previewable(tasks)
    ensures Starting(Groups(tasks), HeadingMark) == Headings(tasks)
    decreases |tasks|
  {
    if tasks != [] {
      var n := |tasks|;
      var init := tasks[..n - 1];
      GroupsHeadings(init);
      StartingAppend(Groups(init), TaskLines(n, tasks[n - 1]), HeadingMark);
      GroupHeading(n, tasks[n - 1]);
      HeadingsStep(tasks);
    }
  }

  /** The title lines hold neither a heading nor a snippet line. */
  lemma HeaderUnmarked()
    ensures Starting(PreviewHeader, HeadingMark) == [] && Starting(PreviewHeader, SnippetLabel) == []
  {
    Differs(HeadingMark, PreviewHeader[0], 1);
    StartingNone(PreviewHeader, HeadingMark);
    Differs(SnippetLabel, PreviewHeader[0], 0);
    StartingNone(PreviewHeader, SnippetLabel);
  }

  lemma StartingAfter(header: seq<string>, body: seq<string>, prefix: string)
    requires Starting(header, prefix) == []
    ensures Starting(header + body, prefix) == Starting(body, prefix)
  {
    StartingAppend(header, body, prefix);
  }

  /** The heading lines of the whole preview are the tasks' headings, in order. */
  lemma PreviewHeadings(tasks: seq<Entry>)
    requires Previewable(tasks)
    ensures Starting(PreviewLines(tasks), HeadingMark) == Headings(tasks)
  {
    GroupsHeadings(tasks);
    HeaderUnmarked();
    StartingAfter(PreviewHeader, Groups(tasks), HeadingMark);
  }

  /** The snippet lines of the groups are exactly those of the tasks whose stripped
      snippet is non-empty, in order. */
  lemma {:induction false} GroupsSnippets(tasks: seq<Entry>)
    requires Previewable(tasks)
    ensures Starting(Groups(tasks), SnippetLabel) == SnippetLines(tasks)
    decreases |tasks|
  {
    if tasks != [] {
      var n := |tasks|;
      var init := tasks[..n - 1];
      GroupsSnippets(init);
      StartingAppend(Groups(init), TaskLines(n, tasks[n - 1]), SnippetLabel);
      GroupSnippet(n, tasks[n - 1]);
    }
  }

  /** The snippet lines of the whole preview are those of the tasks whose stripped
      snippet is non-empty, in order. */
  lemma PreviewSnippets(tasks: seq<Entry>)
    requires Previewable(tasks)
    ensures Starting(PreviewLines(tasks), SnippetLabel) == SnippetLines(tasks)
  {
    GroupsSnippets(tasks);
    HeaderUnmarked();
    StartingAfter(PreviewHeader, Groups(tasks), SnippetLabel);
  }

  /** The preview opens with its title line and a blank line. */
  lemma PreviewOpens(tasks: seq<Entry>)
    requires Previewable(tasks)
    ensures |PreviewLines(tasks)| >= 2
    ensures PreviewLines(tasks)[0] == "# Task Preview" && PreviewLines(tasks)[1] == ""
  {
  }

  // ---------------------------------------------------------------------------
  // The task loop of `main`
  // ---------------------------------------------------------------------------

  /** `tasks[:maxTasks]` with Python's slice rules: a negative bound counts from the end. */
  function TakeFirst<T>(tasks: seq<T>, maxTasks: Option<int>): (r: seq<T>)
    ensures r <= tasks
    ensures maxTasks.None? ==> r == tasks
    ensures maxTasks.Some? && 0 <= maxTasks.value ==>
              |r| == (if maxTasks.value <= |tasks| then maxTasks.value else |tasks|)
    ensures maxTasks.Some? && maxTasks.value < 0 ==>
              |r| == (if |tasks| + maxTasks.value >= 0 then |tasks| + maxTasks.value else 0)
  {
    match maxTasks
    case None => tasks
    case Some(n) =>
      if n >= 0 then (if n <= |tasks| then tasks[..n] else tasks)
      else if |tasks| + n >= 0 then tasks[..|tasks| + n]
      else []
  }

  /** Scrapes the tasks one after another, each with its own page: every task is updated
      by `process_url` and returned, so the results are the tasks themselves, in order.
      A launch that raises escapes `process_url` and ends the loop (and `main`, so no
      report is written): the tasks before it are processed, that one and the rest are
      untouched. */
  method ProcessAll(scraper: Scraper.WebScraper, tasks: seq<Scraper.TaskRecord>, pages: seq<Scraper.PageEnv>)
    returns (processed: seq<Scraper.TaskRecord>, escaped: Scraper.Step)
    requires |pages| == |tasks|
    requires forall i, j :: 0 <= i < j < |tasks| ==> tasks[i] != tasks[j]
    modifies set t | t in tasks
    ensures |processed| <= |tasks| && processed == tasks[..|processed|]
    ensures |processed| < |tasks| ==> escaped == pages[|processed|].launch && escaped.Raised?
    ensures |processed| == |tasks| ==> escaped == Scraper.Done
    ensures forall k :: 0 <= k < |processed| ==>
              pages[k].launch.Done? &&
              tasks[k].fields == Scraper.Finish(Scraper.Attempt(scraper.settings, old(tasks[k].fields), pages[k]))
    ensures forall k :: |processed| <= k < |tasks| ==> tasks[k].fields == old(tasks[k].fields)
  {
    ghost var before := FieldsOf(tasks);
    processed := [];
    escaped := Scraper.Done;
    var i := 0;
    while i < |tasks|
      invariant 0 <= i <= |tasks|
      invariant processed == tasks[..i]
      invariant forall k :: 0 <= k < i ==> pages[k].launch.Done? && tasks[k].fields == Scraper.Finish(Scraper.Attempt(scraper.settings, before[k], pages[k]))
      invariant forall k :: i <= k < |tasks| ==> tasks[k].fields == before[k]
    {
      var outcome := ProcessOne(scraper, tasks[i], pages[i], before[i]);
      assert tasks[i].fields == (if outcome.Raised? then before[i] else Scraper.Finish(Scraper.Attempt(scraper.settings, before[i], pages[i])));
      if outcome.Raised? {
        escaped := outcome;
        return;
      }
      processed := processed + [tasks[i]];
      i := i + 1;
    }
  }

  /** Every task the parser builds has a string `original_snippet`, so the preview of
      the parsed tasks (or of any prefix of them) can be written. */
  lemma {:induction false} ParsedPreviewable(lines: seq<string>)
    ensures Previewable(TaskParser.Tasks(lines))
    decreases |lines|
  {
    if lines != [] {
      var init := lines[..|lines| - 1];
      ParsedPreviewable(init);
      var tasks := TaskParser.Tasks(lines);
      forall k | 0 <= k < |tasks| ensures SnippetValue(tasks[k]).VStr? {
        if k < |TaskParser.Tasks(init)| {
          assert tasks[k] == TaskParser.Tasks(init)[k];
        }
      }
    }
  }

  /** Every task the parser builds holds strings in the fields the report prints. */
  lemma {:induction false} ParsedPrintable(lines: seq<string>)
    ensures forall k :: 0 <= k < |TaskParser.Tasks(lines)| ==> Printable(TaskParser.Tasks(lines)[k])
    decreases |lines|
  {
    if lines != [] {
      var init := lines[..|lines| - 1];
      ParsedPrintable(init);
      var tasks := TaskParser.Tasks(lines);
      forall k | 0 <= k < |tasks| ensures Printable(tasks[k]) {
        if k < |TaskParser.Tasks(init)| {
          assert tasks[k] == TaskParser.Tasks(init)[k];
        } else {
          var text := lines[|lines| - 1];
          MakeTaskPrintable(TaskParser.Pending(init), TaskParser.CleanUrl(TaskParser.FindUrl(text).value));
        }
      }
    }
  }

  lemma MakeTaskPrintable(buffer: seq<string>, url: string)
    ensures Printable(TaskParser.MakeTask(buffer, url))
  {
    var t := TaskParser.MakeTask(buffer, url);
    assert t.Keys == {"source", "date", "title", "url", "snippet", "original_snippet"};
    assert "full_text" !in t && "telegram_screenshot_path" !in t && "screenshot_path" !in t;
  }

  /** The keys whose values the report prints as text. */
  predicate PrintedKey(key: string) {
    key in {"source", "date", "snippet", "original_snippet", "url", "full_text",
            "telegram_screenshot_path", "screenshot_path"}
  }

  /** Writing a string, or anything under a key the report does not print as text,
      keeps an entry printable. */
  lemma UpdatePrintable(entry: Entry, key: string, v: Val)
    requires Printable(entry) && (v.VStr? || !PrintedKey(key))
    ensures Printable(entry[key := v])
  {
  }

  lemma SucceededPrintable(entry: Entry, blocks: seq<string>, fullText: string, screenshot: string)
    requires Printable(entry)
    ensures Printable(Scraper.Succeeded(entry, blocks, fullText, screenshot))
  {
    var e1 := entry["text_blocks" := VList(blocks)];
    UpdatePrintable(entry, "text_blocks", VList(blocks));
    var e2 := e1["screenshot_path" := VStr(screenshot)];
    UpdatePrintable(e1, "screenshot_path", VStr(screenshot));
    UpdatePrintable(e2, "full_text", VStr(fullText));
    UpdatePrintable(e2["full_text" := VStr(fullText)], "status", VStr("success"));
  }

  /** `process_url` writes only strings, and the block list under a key the report does
      not print as text, so an entry the report can print is still printable once
      processed. */
  lemma OutcomePrintable(settings: Scraper.Settings, entry: Entry, env: Scraper.PageEnv)
    requires Printable(entry)
    ensures Printable(Scraper.Finish(Scraper.Attempt(settings, entry, env)))
  {
    var marked := Scraper.Marked(settings, entry, env);
    if marked != entry {
      UpdatePrintable(entry, Scraper.TelegramPathKey, VStr(env.telegramPath));
    }
    forall blocks: seq<string>, fullText: string, screenshot: string
      ensures Printable(Scraper.Succeeded(marked, blocks, fullText, screenshot))
    {
      SucceededPrintable(marked, blocks, fullText, screenshot);
    }
    var attempt := Scraper.Attempt(settings, entry, env);
    assert Printable(attempt.0);
    if attempt.1.Raised? {
      UpdatePrintable(attempt.0, "status", VStr("failed"));
      UpdatePrintable(attempt.0["status" := VStr("failed")], "error", VStr(attempt.1.message));
    }
  }

  /** The records `main` hands on meet what the preview and the report need: the kept
      (first `maxTasks`) parsed tasks can be previewed, and each, once processed with
      the page at its position, can be printed. */
  lemma MainRecordsFit(lines: seq<string>, maxTasks: Option<int>, settings: Scraper.Settings,
                       pages: seq<Scraper.PageEnv>)
    ensures Previewable(TakeFirst(TaskParser.Tasks(lines), maxTasks))
    ensures var kept := TakeFirst(TaskParser.Tasks(lines), maxTasks);
      forall k :: 0 <= k < |kept| && k < |pages| ==> Printable(Scraper.Finish(Scraper.Attempt(settings, kept[k], pages[k])))
  {
    var all := TaskParser.Tasks(lines);
    var kept := TakeFirst(all, maxTasks);
    ParsedPreviewable(lines);
    ParsedPrintable(lines);
    assert forall k :: 0 <= k < |kept| ==> kept[k] == all[k];
    forall k | 0 <= k < |kept| && k < |pages|
      ensures Printable(Scraper.Finish(Scraper.Attempt(settings, kept[k], pages[k])))
    {
      OutcomePrintable(settings, kept[k], pages[k]);
    }
  }

  /** One iteration of the task loop: the task ends up as `process_url` leaves it, or
      the launch's exception escapes with the task unchanged. */
  method ProcessOne(scraper: Scraper.WebScraper, task: Scraper.TaskRecord, page: Scraper.PageEnv, ghost before: Entry)
    returns (escaped: Scraper.Step)
    requires task.fields == before
    modifies task
    ensures escaped == page.launch
    ensures page.launch.Raised? ==> task.fields == before
    ensures page.launch.Done? ==> task.fields == Scraper.Finish(Scraper.Attempt(scraper.settings, before, page))
  {
    escaped := scraper.ProcessUrl(task, page);
  }

  /** The report's operations for `entries`, one entry's section after another. */
  function ReportOps(entries: seq<Entry>, fileExists: string -> bool, insert: string -> Option<string>): seq<DocOp>
    decreases |entries|
  {
    if entries == [] then []
    else ReportOps(entries[..|entries| - 1], fileExists, insert) + EntryOps(entries[|entries| - 1], fileExists, insert)
  }

  function FieldsOf(tasks: seq<Scraper.TaskRecord>): (r: seq<Entry>)
    reads set t | t in tasks
    ensures |r| == |tasks| && forall k :: 0 <= k < |tasks| ==> r[k] == tasks[k].fields
  {
    seq(|tasks|, k reads set t | t in tasks requires 0 <= k < |tasks| => tasks[k].fields)
  }

  /** Adds every processed task to the report, in order. */
  method WriteReport(writer: ReportGenerator, tasks: seq<Scraper.TaskRecord>,
                     fileExists: string -> bool, insert: string -> Option<string>)
    requires forall k :: 0 <= k < |tasks| ==> Printable(tasks[k].fields)
    modifies writer
    ensures writer.doc == old(writer.doc) + ReportOps(FieldsOf(tasks), fileExists, insert)
  {
    ghost var entries := FieldsOf(tasks);
    ghost var start := writer.doc;
    var i := 0;
    while i < |tasks|
      invariant 0 <= i <= |tasks|
      invariant writer.doc == start + ReportOps(entries[..i], fileExists, insert)
    {
      ghost var done := ReportOps(entries[..i], fileExists, insert);
      writer.AddEntry(tasks[i].fields, fileExists, insert);
      AppendAssoc(start, done, EntryOps(entries[i], fileExists, insert));
      ReportOpsStep(entries, i, fileExists, insert);
      i := i + 1;
    }
    assert entries[..|tasks|] == entries;
  }

  lemma ReportOpsStep(entries: seq<Entry>, i: nat, fileExists: string -> bool, insert: string -> Option<string>)
    requires i < |entries|
    ensures ReportOps(entries[..i + 1], fileExists, insert)
            == ReportOps(entries[..i], fileExists, insert) + EntryOps(entries[i], fileExists, insert)
  {
    assert entries[..i + 1][..i] == entries[..i];
  }

  function FailedCount(entries: seq<Entry>): nat
    decreases |entries|
  {
    if entries == [] then 0
    else FailedCount(entries[..|entries| - 1]) + (if Get(entries[|entries| - 1], "status") == VStr("failed") then 1 else 0)
  }

  /** A report of `n` entries has `n` page breaks, and one failure notice per failed entry. */
  lemma {:induction false} ReportCounts(entries: seq<Entry>, fileExists: string -> bool, insert: string -> Option<string>)
    ensures CountOps(ReportOps(entries, fileExists, insert), IsBreak) == |entries|
    ensures CountOps(ReportOps(entries, fileExists, insert), IsAlert) == FailedCount(entries)
    decreases |entries|
  {
    if entries != [] {
      var init := entries[..|entries| - 1];
      var last := entries[|entries| - 1];
      ReportCounts(init, fileExists, insert);
      EntryCounts(last, fileExists, insert);
      CountAppend(ReportOps(init, fileExists, insert), EntryOps(last, fileExists, insert), IsBreak);
      CountAppend(ReportOps(init, fileExists, insert), EntryOps(last, fileExists, insert), IsAlert);
    }
  }
}
