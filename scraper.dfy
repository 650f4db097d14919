/** The scraper's own decisions around the browser: forcing a visible browser, composing
    the launch flags, the lazily opened session, the screenshot file names, the fallback
    text cleanup, and the per-task outcome recorded into the task entry. Every browser,
    model and operating-system call is an input that either yields a value or raises. */
module Scraper {
  import opened Wrappers
  import opened Text
  import opened Records
  import opened Extractor
  import opened BlockFilter

  // ---------------------------------------------------------------------------
  // Configuration

  /** A string option as Python tests it: `None` and `""` are false. */
  predicate Given(s: Option<string>) { s.Some? && s.value != "" }

  /** `headless` after `__init__`: a visible browser is forced whenever window capture or
      an extension is requested. */
  function ForceHeadless(headless: bool, pyautogui: bool, extensionPath: Option<string>): bool {
    if pyautogui && headless then false
    else if Given(extensionPath) && headless then false
    else headless
  }

  /** Headless survives only when neither capture nor an extension asks for a window, and
      is never switched on. */
  lemma HeadlessForcing(headless: bool, pyautogui: bool, extensionPath: Option<string>)
    ensures ForceHeadless(headless, pyautogui, extensionPath) ==> headless
    ensures pyautogui || Given(extensionPath) ==> !ForceHeadless(headless, pyautogui, extensionPath)
    ensures !pyautogui && !Given(extensionPath) ==> ForceHeadless(headless, pyautogui, extensionPath) == headless
  {
  }

  const MaskFlag := "--disable-blink-features=AutomationControlled"

  function ExtensionArgs(extensionPath: Option<string>): seq<string> {
    if Given(extensionPath)
    then ["--disable-extensions-except=" + extensionPath.value, "--load-extension=" + extensionPath.value]
    else []
  }

  /** The launch flags. The persistent launch writes its base list as the extension flags
      plus the user's flags when there are extension flags and the user's flags alone
      otherwise; the fresh launch always concatenates. Either way the automation mask flag
      is appended when masking is on and the flag is not already there. */
  function LaunchFlags(persistent: bool, extensionPath: Option<string>, userFlags: seq<string>, mask: bool): seq<string> {
    var ext := ExtensionArgs(extensionPath);
    var flags := if persistent then (if ext != [] then ext + userFlags else userFlags) else ext + userFlags;
    if mask && MaskFlag !in flags then flags + [MaskFlag] else flags
  }

  /** `args=flags or None`. */
  function LaunchArgs(flags: seq<string>): Option<seq<string>> {
    if flags == [] then None else Some(flags)
  }

  /** The persistent and the fresh launch compose the same flags. */
  lemma LaunchFlagsAgree(extensionPath: Option<string>, userFlags: seq<string>, mask: bool)
    ensures LaunchFlags(true, extensionPath, userFlags, mask) == LaunchFlags(false, extensionPath, userFlags, mask)
  {
    assert [] + userFlags == userFlags;
  }

  function Count(s: seq<string>, x: string): nat {
    if s == [] then 0 else (if s[0] == x then 1 else 0) + Count(s[1..], x)
  }

  lemma {:induction false} CountAppend(s: seq<string>, t: seq<string>, x: string)
    ensures Count(s + t, x) == Count(s, x) + Count(t, x)
    decreases |s|
  {
    if s == [] {
      assert s + t == t;
    } else {
      CountAppend(s[1..], t, x);
      assert (s + t)[1..] == s[1..] + t;
    }
  }

  lemma {:induction false} CountAbsent(s: seq<string>, x: string)
    requires x !in s
    ensures Count(s, x) == 0
    decreases |s|
  {
    if s != [] { CountAbsent(s[1..], x); }
  }

  /** Neither extension flag is the mask flag. */
  lemma ExtensionArgsUnmasked(extensionPath: Option<string>)
    ensures MaskFlag !in ExtensionArgs(extensionPath)
  {
    var e := ExtensionArgs(extensionPath);
    if e != [] {
      assert e[0][10] == 'e' && e[1][2] == 'l';
      assert MaskFlag[10] == 'b' && MaskFlag[2] == 'd';
    }
  }

  /** The flags start with the two extension flags (when an extension is given) followed by
      the user's flags in order; at most the mask flag follows, exactly when masking is on
      and neither list holds it, so a mask flag the user did not pass appears once if
      masking is on and not at all otherwise. */
  lemma {:induction false} LaunchFlagsFacts(extensionPath: Option<string>, userFlags: seq<string>, mask: bool)
    ensures var f := LaunchFlags(false, extensionPath, userFlags, mask); var e := ExtensionArgs(extensionPath);
      && |e| == (if Given(extensionPath) then 2 else 0)
      && |userFlags| + |e| <= |f| && f[..|e| + |userFlags|] == e + userFlags
      && (|f| == |e| + |userFlags| + 1 <==> mask && MaskFlag !in userFlags)
      && (|f| > |e| + |userFlags| ==> f[|f| - 1] == MaskFlag)
      && (mask ==> MaskFlag in f)
      && (MaskFlag !in userFlags ==> Count(f, MaskFlag) == (if mask then 1 else 0))
  {
    var e := ExtensionArgs(extensionPath);
    var base := e + userFlags;
    var f := LaunchFlags(false, extensionPath, userFlags, mask);
    ExtensionArgsUnmasked(extensionPath);
    assert MaskFlag in base <==> MaskFlag in userFlags;
    if MaskFlag !in base {
      CountAbsent(base, MaskFlag);
      if mask {
        CountAppend(base, [MaskFlag], MaskFlag);
      }
    }
    assert f[..|base|] == base;
  }

  /** The scraper's settings once `__init__` has run. */
  datatype Settings = Settings(
    headless: bool, useLlm: bool, pyautogui: bool, interactWithTelegram: bool,
    userDataDir: Option<string>, extensionPath: Option<string>, extensionFlags: seq<string>,
    mask: bool, hasLlmClient: bool)

  /** What `_ensure_context` opened. */
  datatype Context = Persistent(userDataDir: string, headless: bool, args: Option<seq<string>>) | Fresh
  datatype Browser = Browser(headless: bool, args: Option<seq<string>>)

  /** The outcome of a step that returns nothing: completed or raised with a message. */
  datatype Step = Done | Raised(message: string)

  /** The long-lived scraper: its settings and the lazily opened browser session. */
  class WebScraper {
    const settings: Settings
    var playwright: bool
    var browser: Option<Browser>
    var context: Option<Context>

    /** `__init__`: force a visible browser when needed; a model client exists only when
        the model is enabled and a base URL is given. */
    constructor (headless: bool, useLlm: bool, pyautogui: bool, interactWithTelegram: bool,
                 userDataDir: Option<string>, extensionPath: Option<string>,
                 extensionFlags: Option<seq<string>>, mask: bool, llmBaseUrl: Option<string>)
      ensures settings == Settings(ForceHeadless(headless, pyautogui, extensionPath), useLlm, pyautogui,
                                   interactWithTelegram, userDataDir, extensionPath,
                                   extensionFlags.GetOr([]), mask, useLlm && Given(llmBaseUrl))
      ensures !playwright && browser.None? && context.None?
    {
      settings := Settings(ForceHeadless(headless, pyautogui, extensionPath), useLlm, pyautogui,
                           interactWithTelegram, userDataDir, extensionPath,
                           extensionFlags.GetOr([]), mask, useLlm && Given(llmBaseUrl));
      playwright := false;
      browser := None;
      context := None;
    }

    /** `_ensure_context`: nothing when a context is open; otherwise start the driver and
        open either a persistent context on the user-data directory or a browser and a
        fresh context, with the composed flags. A driver that fails to start changes
        nothing; a launch that raises leaves no context. */
    method EnsureContext(startDriver: Step, launchBrowser: Step, openContext: Step) returns (outcome: Step)
      modifies this
      ensures old(context).Some? ==> outcome == Done && unchanged(this)
      ensures old(context).None? && startDriver.Raised? ==> outcome == startDriver && unchanged(this)
      ensures old(context).None? && startDriver.Done? ==> playwright
      ensures old(context).None? && startDriver.Done? && Given(settings.userDataDir) ==>
                && browser == old(browser)
                && outcome == openContext
                && context == (if openContext.Done?
                               then Some(Persistent(settings.userDataDir.value, settings.headless,
                                 LaunchArgs(LaunchFlags(true, settings.extensionPath, settings.extensionFlags, settings.mask))))
                               else None)
      ensures old(context).None? && startDriver.Done? && !Given(settings.userDataDir) ==>
                && browser == (if launchBrowser.Done?
                               then Some(Browser(settings.headless,
                                 LaunchArgs(LaunchFlags(false, settings.extensionPath, settings.extensionFlags, settings.mask))))
                               else old(browser))
                && outcome == (if launchBrowser.Raised? then launchBrowser else openContext)
                && context == (if launchBrowser.Done? && openContext.Done? then Some(Fresh) else None)
    {
      if context.Some? {
        return Done;
      }
      if startDriver.Raised? {
        return startDriver;
      }
      playwright := true;
      if Given(settings.userDataDir) {
        var args := LaunchArgs(LaunchFlags(true, settings.extensionPath, settings.extensionFlags, settings.mask));
        if openContext.Raised? {
          return openContext;
        }
        context := Some(Persistent(settings.userDataDir.value, settings.headless, args));
      } else {
        var args := LaunchArgs(LaunchFlags(false, settings.extensionPath, settings.extensionFlags, settings.mask));
        if launchBrowser.Raised? {
          return launchBrowser;
        }
        browser := Some(Browser(settings.headless, args));
        if openContext.Raised? {
          return openContext;
        }
        context := Some(Fresh);
      }
      outcome := Done;
    }

    /** `close`: the context is forgotten even when closing it raises, and so is the
        browser; an exception while closing one ends the call there. The driver is
        forgotten only once it has stopped. */
    method Close(closeContext: Step, closeBrowser: Step, stop: Step) returns (outcome: Step)
      modifies this
      ensures context.None?
      ensures old(context).Some? && closeContext.Raised? ==>
                outcome == closeContext && browser == old(browser) && playwright == old(playwright)
      ensures !(old(context).Some? && closeContext.Raised?) ==> browser.None?
      ensures !(old(context).Some? && closeContext.Raised?) && old(browser).Some? && closeBrowser.Raised? ==>
                outcome == closeBrowser && playwright == old(playwright)
      ensures !(old(context).Some? && closeContext.Raised?) && !(old(browser).Some? && closeBrowser.Raised?) ==>
                && playwright == (old(playwright) && stop.Raised?)
                && outcome == (if old(playwright) then stop else Done)
    {
      var hadContext := context.Some?;
      context := None;
      if hadContext && closeContext.Raised? {
        return closeContext;
      }
      var hadBrowser := browser.Some?;
      browser := None;
      if hadBrowser && closeBrowser.Raised? {
        return closeBrowser;
      }
      if playwright {
        if stop.Raised? {
          return stop;
        }
        playwright := false;
      }
      outcome := Done;
    }

    /** `process_url`. The browser launch comes before the `try`: when it raises, the
        exception escapes (`escaped`) and the entry is left as it was. After it the steps
        run in order inside one `try`; the first step that raises records `failed` with
        its message, and only a run in which every step completed records the
        screenshot, the text and `success`. */
    method ProcessUrl(entry: TaskRecord, env: PageEnv) returns (escaped: Step)
      modifies entry
      ensures escaped == env.launch
      ensures env.launch.Raised? ==> entry.fields == old(entry.fields)
      ensures env.launch.Done? ==> entry.fields == Finish(Attempt(settings, old(entry.fields), env))
    {
      escaped := env.launch;
      if env.launch.Raised? {
        return;
      }
      ghost var start := entry.fields;
      if env.navigation.Raised? {
        entry.fields := Failed(entry.fields, env.navigation.message);
        return;
      }
      var telegramOpened := false;
      if settings.pyautogui && settings.interactWithTelegram {
        telegramOpened := env.telegramOpened;
        if telegramOpened && env.telegramWait.Raised? {
          entry.fields := Failed(entry.fields, env.telegramWait.message);
          return;
        }
      }
      var shot := ScreenshotStep(settings, env);
      if shot.Raised? {
        entry.fields := Failed(entry.fields, shot.message);
        return;
      }
      if settings.pyautogui && telegramOpened && settings.interactWithTelegram {
        match env.telegramCapture {
          case Err(message) =>
            entry.fields := Failed(entry.fields, message);
            return;
          case Ok(captured) =>
            if captured {
              entry.fields := entry.fields[TelegramPathKey := VStr(env.telegramPath)];
            }
        }
      }
      assert entry.fields == Marked(settings, start, env);
      var blocks: seq<Block> := [];
      if env.dom.Some? {
        blocks := CollectTextBlocks(env.htmlId, env.dom.value);
      }
      assert blocks == PageBlocks(env);
      RecordText(entry, blocks, env);
    }

    /** The text part of `process_url`: the selected blocks, or the raw page text when the
        page yields no block. */
    method RecordText(entry: TaskRecord, blocks: seq<Block>, env: PageEnv)
      modifies entry
      ensures entry.fields == Finish(Written(settings, old(entry.fields), blocks, env))
    {
      if blocks != [] {
        RecordBlocks(entry, blocks, env);
      } else {
        RecordRaw(entry, env);
      }
    }

    /** The raw page text as the only block, and its cleaned form as the full text. */
    method RecordRaw(entry: TaskRecord, env: PageEnv)
      modifies entry
      ensures entry.fields == Finish(Written(settings, old(entry.fields), [], env))
    {
      match env.rawText {
        case Err(message) =>
          entry.fields := Failed(entry.fields, message);
        case Ok(raw) =>
          var fullText := CleanText(raw);
          entry.fields := Succeeded(entry.fields, [raw], fullText, env.screenshotPath);
      }
    }

    /** The selected block texts, through the model when it is enabled. */
    method RecordBlocks(entry: TaskRecord, blocks: seq<Block>, env: PageEnv)
      requires blocks != []
      modifies entry
      ensures entry.fields == Finish(Written(settings, old(entry.fields), blocks, env))
    {
      var filtered: Result<seq<string>>;
      if settings.useLlm {
        filtered := FilterBlocks(blocks, settings.hasLlmClient, Get(entry.fields, "title"), env.llm, env.loads);
      } else {
        filtered := Ok(Texts(blocks));
      }
      assert filtered == Selection(settings, entry.fields, blocks, env);
      if filtered.Err? {
        entry.fields := Failed(entry.fields, filtered.message);
        return;
      }
      entry.fields := Succeeded(entry.fields, filtered.value, Join(NonEmpty(filtered.value), "\n\n"), env.screenshotPath);
    }
  }

  /** A task entry, which `process_url` updates in place. */
  class TaskRecord {
    var fields: Entry
    constructor (fields0: Entry)
      ensures fields == fields0
    {
      fields := fields0;
    }
  }

  // ---------------------------------------------------------------------------
  // Screenshot names

  predicate Alnum(c: char) { 'a' <= c <= 'z' || 'A' <= c <= 'Z' || '0' <= c <= '9' }

  predicate IsDash(c: char) { c == '-' }
  predicate IsSlash(c: char) { c == '/' }
  predicate IsUnderscore(c: char) { c == '_' }

  /** Neither a letter, a digit nor a dash. */
  predicate Foreign(c: char) { !Alnum(c) && c != '-' }

  predicate NotAlnum(c: char) { !Alnum(c) }

  /** Drop the leading characters outside `[a-zA-Z0-9]`. */
  function SkipRun(s: string): (r: string)
    ensures |r| <= |s| && r == s[|s| - |r|..]
    ensures r == [] || Alnum(r[0])
    ensures forall i :: 0 <= i < |s| - |r| ==> NotAlnum(s[i])
  {
    TrimLeft(s, NotAlnum)
  }

  /** `re.sub(r"[^a-zA-Z0-9]+", "-", s)`: every maximal run of other characters becomes
      one `-`. */
  function CollapseRuns(s: string): (r: string)
    ensures forall i :: 0 <= i < |r| ==> !Foreign(r[i])
    decreases |s|
  {
    if s == [] then []
    else if Alnum(s[0]) then
      var rest := CollapseRuns(s[1..]);
      [s[0]] + rest
    else
      var tail := SkipRun(s[1..]);
      var rest := CollapseRuns(tail);
      ['-'] + rest
  }

  /** The letters and digits of a string, in order. */
  function Alnums(s: string): string { Filter(s, Alnum) }

  /** Collapsing keeps every letter and digit, in order. */
  lemma {:induction false} CollapseKeepsAlnums(s: string)
    ensures Alnums(CollapseRuns(s)) == Alnums(s)
    decreases |s|
  {
    if s != [] {
      if Alnum(s[0]) {
        CollapseKeepsAlnums(s[1..]);
        assert ([s[0]] + CollapseRuns(s[1..]))[1..] == CollapseRuns(s[1..]);
      } else {
        var t := s[1..];
        var tail := SkipRun(t);
        CollapseKeepsAlnums(tail);
        assert forall i :: 0 <= i < |t| - |tail| ==> !Alnum(t[i]);
        FilterDropPrefix(t, |t| - |tail|, Alnum);
        assert (['-'] + CollapseRuns(tail))[1..] == CollapseRuns(tail);
      }
    }
  }

  /** The host and the path of `_slugify_url`: the non-empty ones stripped of `/`,
      joined by `_`, and stripped of `_`. */
  function JoinedParts(netloc: string, path: string): string {
    var parts := (if netloc != "" then [Trim(netloc, IsSlash)] else []) + (if path != "" then [Trim(path, IsSlash)] else []);
    Trim(Join(parts, "_"), IsUnderscore)
  }

  /** `raw or "page"`. */
  function OrPage(raw: string): (r: string)
    ensures raw != [] ==> r == raw
  {
    if raw == "" then "page" else raw
  }

  /** The name made of the joined parts: collapsed to letters, digits and single dashes,
      stripped of `-`, or `page` when nothing is left. */
  function NameOf(joined: string): string {
    OrPage(Trim(CollapseRuns(joined), IsDash))
  }

  /** The name part of `_slugify_url`, before the cut to 80 characters. */
  function SlugName(netloc: string, path: string): string {
    NameOf(JoinedParts(netloc, path))
  }

  /** The name is never empty, holds only letters, digits and dashes, and starts and ends
      with a letter or digit. */
  lemma NameFacts(joined: string)
    ensures var name := NameOf(joined);
      && name != []
      && (forall i :: 0 <= i < |name| ==> !Foreign(name[i]))
      && Alnum(name[0]) && Alnum(name[|name| - 1])
  {
    var collapsed := CollapseRuns(joined);
    TrimKeeps(collapsed, IsDash, Foreign);
    var raw := Trim(collapsed, IsDash);
    if raw == [] {
      var page := "page";
      assert page[0] == 'p' && page[1] == 'a' && page[2] == 'g' && page[3] == 'e';
      assert forall i :: 0 <= i < |page| ==> Alnum(page[i]);
    }
  }

  lemma DashNotAlnum()
    ensures forall c :: IsDash(c) ==> !Alnum(c)
  {
  }

  /** The name keeps the letters and digits of the joined parts, in order, whenever they
      have any. */
  lemma NameKeepsAlnums(joined: string)
    requires Alnums(joined) != []
    ensures Alnums(NameOf(joined)) == Alnums(joined)
  {
    var collapsed := CollapseRuns(joined);
    CollapseKeepsAlnums(joined);
    DashNotAlnum();
    TrimFilter(collapsed, IsDash, Alnum);
    var raw := Trim(collapsed, IsDash);
    assert Alnums(raw) != [];
  }

  /** The slug from a name and a digest: at most 80 name characters, a dash and at most
      ten digest characters. */
  function Slug(name: string, digest: string): (r: string)
    ensures var d := Prefix(digest, 10); var n := Prefix(name, 80);
      && |r| == |n| + 1 + |d|
      && r[..|n|] == name[..|n|] && r[|n|] == '-' && r[|n| + 1..] == digest[..|d|]
  {
    var d := Prefix(digest, 10);
    var n := Prefix(name, 80);
    assert (n + "-" + d)[..|n|] == n;
    assert (n + "-" + d)[|n| + 1..] == d;
    n + "-" + d
  }

  /** `_slugify_url`, with the URL's parsed host and path and its SHA-1 hex digest given. */
  function Slugify(netloc: string, path: string, digest: string): string {
    Slug(SlugName(netloc, path), digest)
  }

  /** A slug ends with a dash and the first ten characters of the digest; before them
      come one to 80 characters of the name. */
  lemma SlugFacts(name: string, digest: string)
    requires name != [] && (forall i :: 0 <= i < |name| ==> !Foreign(name[i])) && Alnum(name[0])
    ensures var slug := Slug(name, digest); var d := Prefix(digest, 10);
      && |slug| >= |d| + 2
      && slug[|slug| - |d| - 1..] == "-" + d
      && var head := slug[..|slug| - |d| - 1];
      && 1 <= |head| <= 80
      && head == name[..|head|]
      && (forall i :: 0 <= i < |head| ==> !Foreign(head[i]))
      && Alnum(head[0])
  {
    var slug := Slug(name, digest);
    var d := Prefix(digest, 10);
    var n := Prefix(name, 80);
    assert slug[|n|..] == "-" + d;
    assert slug[..|n|] == n;
  }

  /** `_screenshot_path`: `<dir>/<prefix>_<slug>.png`. */
  function ScreenshotPath(tempDir: string, prefix: string, slug: string): (r: string)
    ensures |r| == |tempDir| + |prefix| + |slug| + 6
    ensures r[..|tempDir| + 1] == tempDir + "/" && r[|r| - 4..] == ".png"
    ensures r[|tempDir| + 1..|r| - 4] == prefix + "_" + slug
  {
    tempDir + "/" + prefix + "_" + slug + ".png"
  }

  /** `isTelegramHref`: a `tg:` link or one mentioning `t.me`, in any letter case; an
      empty or missing href is not one. */
  predicate IsTelegramHref(href: string) {
    var lower := Lower(href);
    href != "" && ("tg:" <= lower || Infix("t.me", lower))
  }

  /** The test ignores letter case. */
  lemma TelegramHrefCaseless(href: string)
    ensures IsTelegramHref(Lower(href)) == IsTelegramHref(href)
  {
    LowerIdempotent(href);
  }

  // ---------------------------------------------------------------------------
  // Fallback text cleanup

  predicate IsLineFeed(c: char) { c == '\n' }

  /** The lines of the text (`raw_text.splitlines()`). */
  function Lines(raw: string): seq<string> { SplitLines(raw) }

  /** The phrases of one stripped line: its pieces between double spaces, each stripped. */
  function LinePhrases(line: string): (r: seq<string>) {
    var pieces := Split(Strip(line), "  ");
    seq(|pieces|, i requires 0 <= i < |pieces| => Strip(pieces[i]))
  }

  /** The phrases of all lines, in order. */
  function Phrases(lines: seq<string>): seq<string>
    decreases |lines|
  {
    if lines == [] then [] else LinePhrases(lines[0]) + Phrases(lines[1..])
  }

  /** The cleaned text of the raw-page fallback. */
  function Chunks(raw: string): seq<string> { NonEmpty(Phrases(Lines(raw))) }

  function CleanText(raw: string): string { Join(Chunks(raw), "\n") }

  /** Every phrase of a line without line feeds is stripped and has none either. */
  lemma LinePhrasesClean(line: string)
    requires forall k :: 0 <= k < |line| ==> !IsLineFeed(line[k])
    ensures forall i, k :: 0 <= i < |LinePhrases(line)| && 0 <= k < |LinePhrases(line)[i]| ==> !IsLineFeed(LinePhrases(line)[i][k])
    ensures forall i :: 0 <= i < |LinePhrases(line)| ==> Stripped(LinePhrases(line)[i], PySpace)
  {
    TrimKeeps(line, PySpace, IsLineFeed);
    var pieces := Split(Strip(line), "  ");
    SplitKeeps(Strip(line), "  ", IsLineFeed);
    forall i | 0 <= i < |pieces| ensures forall k :: 0 <= k < |Strip(pieces[i])| ==> !IsLineFeed(Strip(pieces[i])[k]) {
      TrimKeeps(pieces[i], PySpace, IsLineFeed);
    }
  }

  lemma {:induction false} PhrasesClean(lines: seq<string>)
    requires forall i, k :: 0 <= i < |lines| && 0 <= k < |lines[i]| ==> !IsLineFeed(lines[i][k])
    ensures forall i :: 0 <= i < |Phrases(lines)| ==> '\n' !in Phrases(lines)[i] && Stripped(Phrases(lines)[i], PySpace)
    decreases |lines|
  {
    if lines != [] {
      PhrasesClean(lines[1..]);
      LinePhrasesClean(lines[0]);
      var head := LinePhrases(lines[0]);
      var tail := Phrases(lines[1..]);
      forall i | 0 <= i < |head + tail| ensures '\n' !in (head + tail)[i] && Stripped((head + tail)[i], PySpace) {
        if i < |head| {
          assert forall k :: 0 <= k < |head[i]| ==> !IsLineFeed(head[i][k]);
        } else {
          assert (head + tail)[i] == tail[i - |head|];
        }
      }
    }
  }

  /** The cleaned text, split on line feeds, gives back exactly its chunks: each one
      non-empty and stripped. */
  lemma CleanTextLines(raw: string)
    requires Chunks(raw) != []
    ensures Split(CleanText(raw), "\n") == Chunks(raw)
    ensures forall i :: 0 <= i < |Chunks(raw)| ==> Chunks(raw)[i] != "" && Stripped(Chunks(raw)[i], PySpace)
  {
    var lines := Lines(raw);
    PhrasesClean(lines);
    var chunks := Chunks(raw);
    assert forall i :: 0 <= i < |chunks| ==> chunks[i] in Phrases(lines);
    SplitJoin(chunks, '\n');
  }

  // ---------------------------------------------------------------------------
  // The outcome of one task

  /** What each browser step of `process_url` yields. A `None` tree means the extraction
      script raised (the code then continues with no blocks). */
  datatype PageEnv = PageEnv(
    launch: Step,                                    // the driver, browser, context and page, before the `try`
    navigation: Step,                                // goto and the waits
    telegramOpened: bool,                            // the click script (it never raises)
    telegramWait: Step,                              // the 1500 ms wait after a successful click
    pageTitle: Result<string>,                       // page.title(), read for window capture
    windowCaptured: Result<bool>,                    // window capture: an import error other
                                                     // than ImportError raises, else success
    screenshot: Step,                                // the viewport screenshot
    telegramCapture: Result<bool>,                   // the Telegram window capture
    dom: Option<Element>,                            // the page's body for the extractor
    htmlId: string,                                  // the id of the page's `html` element
    llm: Request -> Option<string>,                  // the model's reply, if the request succeeds
    loads: string -> Option<map<string, Json>>,      // the JSON parser
    rawText: Result<string>,                         // page.content() and get_text
    screenshotPath: string,
    telegramPath: string)

  const TelegramPathKey := "telegram_screenshot_path"

  /** The screenshot: by window capture when enabled (falling back to the viewport
      screenshot when it fails), else the viewport screenshot. Reading the title, and an
      exception other than `ImportError` from importing the capture libraries, raise. */
  function ScreenshotStep(settings: Settings, env: PageEnv): Step {
    if settings.pyautogui then
      match env.pageTitle
      case Err(message) => Raised(message)
      case Ok(_) =>
        match env.windowCaptured
        case Err(message) => Raised(message)
        case Ok(captured) => if captured then Done else env.screenshot
    else env.screenshot
  }

  /** The Telegram window is captured only when capture and interaction are on and the
      "open in Telegram" click happened. */
  predicate TelegramAttempted(settings: Settings, env: PageEnv) {
    settings.pyautogui && settings.interactWithTelegram && env.telegramOpened
  }

  function Failed(entry: Entry, message: string): Entry {
    entry["status" := VStr("failed")]["error" := VStr(message)]
  }

  function Succeeded(entry: Entry, blocks: seq<string>, fullText: string, screenshot: string): Entry {
    entry["text_blocks" := VList(blocks)]["screenshot_path" := VStr(screenshot)]["full_text" := VStr(fullText)]["status" := VStr("success")]
  }

  /** The blocks the page yields. */
  function PageBlocks(env: PageEnv): seq<Block> {
    match env.dom
    case None => []
    case Some(root) => Extract(env.htmlId, root)
  }

  /** The entry after the Telegram capture: with the capture's path when it succeeded. */
  function Marked(settings: Settings, entry: Entry, env: PageEnv): Entry {
    if TelegramAttempted(settings, env) && env.telegramCapture == Ok(true)
    then entry[TelegramPathKey := VStr(env.telegramPath)]
    else entry
  }

  /** The text blocks recorded when the page yields blocks. */
  function Selection(settings: Settings, entry: Entry, blocks: seq<Block>, env: PageEnv): Result<seq<string>> {
    if settings.useLlm then FilterBlocks(blocks, settings.hasLlmClient, Get(entry, "title"), env.llm, env.loads)
    else Ok(Texts(blocks))
  }

  /** The text step: the entry it leaves and whether it raised. */
  function Written(settings: Settings, entry: Entry, blocks: seq<Block>, env: PageEnv): (Entry, Step) {
    if blocks != [] then
      match Selection(settings, entry, blocks, env)
      case Err(message) => (entry, Raised(message))
      case Ok(filtered) => (Succeeded(entry, filtered, Join(NonEmpty(filtered), "\n\n"), env.screenshotPath), Done)
    else
      match env.rawText
      case Err(message) => (entry, Raised(message))
      case Ok(raw) => (Succeeded(entry, [raw], CleanText(raw), env.screenshotPath), Done)
  }

  /** Where the run of steps stops: the entry as it stands then, and the exception, if any. */
  function Attempt(settings: Settings, entry: Entry, env: PageEnv): (Entry, Step) {
    if env.navigation.Raised? then (entry, env.navigation)
    else if TelegramAttempted(settings, env) && env.telegramWait.Raised? then (entry, env.telegramWait)
    else if ScreenshotStep(settings, env).Raised? then (entry, ScreenshotStep(settings, env))
    else if TelegramAttempted(settings, env) && env.telegramCapture.Err? then (entry, Raised(env.telegramCapture.message))
    else Written(settings, Marked(settings, entry, env), PageBlocks(env), env)
  }

  /** The `except` clause: an exception escaping the steps is recorded on the entry. */
  function Finish(attempt: (Entry, Step)): Entry {
    match attempt.1
    case Done => attempt.0
    case Raised(message) => Failed(attempt.0, message)
  }

  /** The four keys a completed run writes. */
  predicate SuccessKey(k: string) {
    k == "text_blocks" || k == "screenshot_path" || k == "full_text" || k == "status"
  }

  lemma KeysDistinct()
    ensures !SuccessKey("error") && !SuccessKey(TelegramPathKey) && "error" != TelegramPathKey
    ensures "status" != "error"
  {
    assert |"error"| == 5 && |"status"| == 6 && |"text_blocks"| == 11;
    assert |"screenshot_path"| == 15 && |"full_text"| == 9 && |TelegramPathKey| == 24;
  }

  /** `r` is `e` after a completed run: the screenshot path, a text, text blocks and the
      `success` status written, nothing else changed. */
  ghost predicate SuccessOf(e: Entry, r: Entry, screenshotPath: string) {
    && "text_blocks" in r && r["text_blocks"].VList?
    && "full_text" in r && r["full_text"].VStr?
    && "screenshot_path" in r && r["screenshot_path"] == VStr(screenshotPath)
    && "status" in r && r["status"] == VStr("success")
    && (forall k :: !SuccessKey(k) ==> (k in r <==> k in e))
    && (forall k :: !SuccessKey(k) && k in e ==> r[k] == e[k])
  }

  lemma SucceededFacts(e: Entry, blocks: seq<string>, fullText: string, screenshotPath: string)
    ensures var r := Succeeded(e, blocks, fullText, screenshotPath);
      && SuccessOf(e, r, screenshotPath)
      && r["text_blocks"] == VList(blocks) && r["full_text"] == VStr(fullText)
  {
    var r := Succeeded(e, blocks, fullText, screenshotPath);
    assert |"status"| == 6 && |"full_text"| == 9 && |"screenshot_path"| == 15;
    assert r["status"] == VStr("success");
    assert r["full_text"] == VStr(fullText);
    assert r["screenshot_path"] == VStr(screenshotPath);
  }

  /** The text step either raises, leaving the entry as it was, or completes the run. */
  lemma WrittenShape(settings: Settings, entry: Entry, blocks: seq<Block>, env: PageEnv)
    ensures var w := Written(settings, entry, blocks, env);
      && (w.1.Raised? ==> w.0 == entry)
      && (w.1.Done? ==> SuccessOf(entry, w.0, env.screenshotPath))
  {
    var w := Written(settings, entry, blocks, env);
    if blocks != [] {
      match Selection(settings, entry, blocks, env)
      case Err(_) =>
      case Ok(filtered) => SucceededFacts(entry, filtered, Join(NonEmpty(filtered), "\n\n"), env.screenshotPath);
    } else {
      match env.rawText
      case Err(_) =>
      case Ok(raw) => SucceededFacts(entry, [raw], CleanText(raw), env.screenshotPath);
    }
  }

  /** A failed step leaves the entry as it was, with the Telegram path at most; a run in
      which no step raised completes it. */
  lemma AttemptShape(settings: Settings, entry: Entry, env: PageEnv)
    ensures var (reached, step) := Attempt(settings, entry, env);
      && (step.Raised? ==> reached == entry || reached == Marked(settings, entry, env))
      && (step.Done? ==> SuccessOf(Marked(settings, entry, env), reached, env.screenshotPath))
  {
    if env.navigation.Done? && !(TelegramAttempted(settings, env) && env.telegramWait.Raised?)
       && ScreenshotStep(settings, env).Done?
       && !(TelegramAttempted(settings, env) && env.telegramCapture.Err?) {
      WrittenShape(settings, Marked(settings, entry, env), PageBlocks(env), env);
    }
  }

  /** The entry records `success` exactly when no step raised, and `failed` with the first
      exception's message otherwise: a failed entry is the given one, with the Telegram
      path at most, plus `status` and `error`; a completed one keeps every key but the
      four it writes and the Telegram path. */
  lemma OutcomeFacts(settings: Settings, entry: Entry, env: PageEnv)
    ensures var out := Finish(Attempt(settings, entry, env)); var step := Attempt(settings, entry, env).1;
      && "status" in out
      && (out["status"] == VStr("success") <==> step.Done?)
      && (step.Raised? ==> out == Failed(entry, step.message) || out == Failed(Marked(settings, entry, env), step.message))
      && (step.Done? ==> forall k :: !SuccessKey(k) && k != TelegramPathKey ==>
                           (k in out <==> k in entry) && (k in entry ==> out[k] == entry[k]))
  {
    AttemptShape(settings, entry, env);
    KeysDistinct();
  }

  /** The first step that raises decides the message: navigation, then the wait after
      the Telegram click, then the screenshot, then the Telegram capture. */
  lemma FirstFailureWins(settings: Settings, entry: Entry, env: PageEnv)
    ensures env.navigation.Raised? ==> Finish(Attempt(settings, entry, env)) == Failed(entry, env.navigation.message)
    ensures env.navigation.Done? && TelegramAttempted(settings, env) && env.telegramWait.Raised? ==>
              Finish(Attempt(settings, entry, env)) == Failed(entry, env.telegramWait.message)
    ensures env.navigation.Done? && !(TelegramAttempted(settings, env) && env.telegramWait.Raised?)
              && ScreenshotStep(settings, env).Raised? ==>
              Finish(Attempt(settings, entry, env)) == Failed(entry, ScreenshotStep(settings, env).message)
    ensures env.navigation.Done? && TelegramAttempted(settings, env) && env.telegramWait.Done?
              && ScreenshotStep(settings, env).Done? && env.telegramCapture.Err? ==>
              Finish(Attempt(settings, entry, env)) == Failed(entry, env.telegramCapture.message)
  {
  }

  /** Without the model the text step cannot raise: every block text is kept unchanged
      and the full text is the non-empty ones joined by blank lines. */
  lemma WithoutModel(settings: Settings, entry: Entry, blocks: seq<Block>, env: PageEnv)
    requires !settings.useLlm && blocks != []
    ensures var w := Written(settings, entry, blocks, env);
      && w.1.Done?
      && w.0["text_blocks"] == VList(Texts(blocks))
      && w.0["full_text"] == VStr(Join(NonEmpty(Texts(blocks)), "\n\n"))
  {
    SucceededFacts(entry, Texts(blocks), Join(NonEmpty(Texts(blocks)), "\n\n"), env.screenshotPath);
  }

  /** With no block on the page, the text step raises exactly when reading the raw text
      does; otherwise that text is the only text block and the full text is its cleaned
      form. */
  lemma RawFallback(settings: Settings, entry: Entry, env: PageEnv)
    ensures var w := Written(settings, entry, [], env);
      && (w.1.Done? <==> env.rawText.Ok?)
      && (env.rawText.Err? ==> w.1 == Raised(env.rawText.message))
      && (env.rawText.Ok? ==> (&& w.0["text_blocks"] == VList([env.rawText.value])
                               && w.0["full_text"] == VStr(CleanText(env.rawText.value))))
  {
    if env.rawText.Ok? {
      SucceededFacts(entry, [env.rawText.value], CleanText(env.rawText.value), env.screenshotPath);
    }
  }
}
