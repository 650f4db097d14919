# News auto scrapper, modelled in Dafny

The news auto scrapper reads a Word document that lists news items (source line, date
line, snippet lines, then a line with the article's address) and turns each item into a
task. For each task it opens the page in a browser, takes a screenshot (optionally of the
whole window and of the Telegram desktop app), extracts the article's text blocks (through
a local language model when one is configured) and finally writes a Word report with one
section per task.

This project models the core of that pipeline and proves properties of it:

- `task_parser.dfy` (module `TaskParser`): the reader that turns paragraphs, runs and page
  breaks into lines, and the parse loop that groups lines into tasks around their
  addresses.
- `extractor.dfy` (module `Extractor`): the in-page script of `_collect_text_blocks`: the
  tree walk with its accept/skip/reject filter, candidate admission (blacklist, length band,
  no nesting, no heavy child), the `<p>` fallback, the 30-block numbering and the CSS
  selector built by `describe`.
- `block_filter.dfy` (module `BlockFilter`): `_filter_blocks_with_llm`: the stable
  longest-first ranking, the five-block fallback, the preview and request, locating the
  JSON object in the reply, gathering the selected ids and resolving them to block texts.
- `scraper.dfy` (module `Scraper`): the `WebScraper` class: its settings, the lazily opened
  browser session and its closing, the launch flags, `_slugify_url`, `_screenshot_path`,
  the Telegram link test, the raw-text clean-up and `process_url` as a sequence of steps
  whose outcomes are given.
- `report_writer.dfy` (module `ReportWriter`): the `ReportGenerator` class: `add_entry` and
  `_add_preserved_paragraphs`, appending to a document modelled as a list of operations.
- `cli.dfy` (module `Cli`): `main.py`: `_str_to_bool`, `_env_bool`, the normalisation of the
  parsed options, `write_task_preview`, the `max_tasks` cut, the scrape loop and the report
  loop.
- `text.dfy`, `records.dfy` and `wrappers.dfy`: the Python string operations used above
  (`strip`, `split`, `join`, `lower`, `find`, `rfind`, slicing, `replace`, `splitlines`),
  records as `dict`s with Python truthiness, and `Option`/`Result`.

A record (`dict`) is a `map<string, Val>` where `Val` is `None`, a string or a list of
strings, so that `get(key)`, `get(key, default)` and `a or b` behave as in Python. The DOM
is an `Element` tree whose nodes carry a tag, an id, and their rendered `innerText`. A
node is named by its path of child indices from `document.body`; the id of the `html`
element above the body comes with the tree. Text lengths the in-page script compares are
counted in UTF-16 code units, as JavaScript's `length` counts them. Everything the browser,
the operating system or the model does is given to `process_url` as data (`PageEnv`): the
outcome of each step that can raise, the page's body, the model's reply as a function of
the request, the JSON parser as a function, the raw page text, and the two screenshot
paths.

Two behaviours of the code a reader may not expect, both modelled as written:

- `_filter_blocks_with_llm` can raise. An id item that is a list or an object makes
  `set(selected_ids)` raise `TypeError` outside the `try`. `BlockFilter.HashError` models
  this, and `process_url` then records the task as failed.
- An id that is not a string (a number, a boolean, `null`) still counts as a gathered id,
  so it ends the key search, but it never matches a block (`BlockFilter.ChosenOnlyByString`).

## Model

| member | source | states |
|---|---|---|
| TaskParser.IterLines | src/parser.py:79-106 | the reader's nested loop over paragraphs, runs and children, with one pending-parts list shared by all, yields exactly the rendered items of the document |
| TaskParser.ReadParagraph | src/parser.py:95-103 | reading the runs of one paragraph turns the paragraph's items into the lines it yields plus the parts left pending for the flush at the paragraph's end |
| TaskParser.ReadRun | src/parser.py:96-103 | the innermost loop: a run's children move from the items still to come to the lines yielded and the parts pending, with the lines so far kept in front |
| TaskParser.TextStep | src/parser.py:97-98 | a `w:t` child adds its text (or "" for none) to the pending parts and yields nothing |
| TaskParser.BreakStep | src/parser.py:99-103 | a page break yields the joined pending text when it is non-empty, then the page marker, and leaves nothing pending |
| TaskParser.OtherStep | src/parser.py:96-99 | any other child, including a break whose type is not `page`, changes neither the lines nor the pending parts |
| TaskParser.Flush | src/parser.py:89-106 | a flush yields at most one line, and none exactly when the pending text is empty |
| TaskParser.Scan | src/parser.py:96-106 | no text line the reader yields is empty |
| TaskParser.ReaderNoEmpty | src/parser.py:101-106 | the reader never yields an empty line, so the parse loop's empty-line check never fires on a document it reads |
| TaskParser.DocItems | src/parser.py:89-106 | the items a document yields, paragraph by paragraph; no text line among them is empty |
| TaskParser.ScanPreserves | src/parser.py:96-106 | the lines of a paragraph spell the pending text followed by the text of its `w:t` children, in order, with one marker per page break |
| TaskParser.DocPreserves | src/parser.py:94-106 | over a whole document, the yielded text lines spell the document's text in order, and there is one marker per page break |
| TaskParser.Scheme | src/parser.py:30 | the scheme matched at the front of a text is `https://` (8), `http://` (7) or nothing (0) |
| TaskParser.MatchFacts | src/parser.py:30 | a match of `https?://[^\s]+` at the front is the scheme followed by the longest non-empty run of non-whitespace, ending at whitespace or the end; none exists exactly when no scheme or no non-space follows |
| TaskParser.FirstMatchLeftmost | src/parser.py:41 | `search` reports a position where the pattern matches and none before it, and reports no match only when the pattern matches nowhere |
| TaskParser.FirstWhereLeftmost | src/parser.py:41 | the left-to-right search finds the first hit in its range, or proves there is none |
| TaskParser.UrlFacts | src/parser.py:41-46 | the cleaned address is a prefix of the match, still begins with `https://` or `http://`, ends in no stripped punctuation, and holds no whitespace after its scheme |
| TaskParser.CleanKeepsScheme | src/parser.py:46 | `rstrip('.,;:)("\'')` stops at the `/` ending the scheme at the latest, so the three facts above hold for any match |
| TaskParser.FindUrl | src/parser.py:30-44 | `url_pattern.search(text).group(0)`, or none without a match (`FirstMatchLeftmost`, `MatchFacts`) |
| TaskParser.CleanUrl | src/parser.py:46 | `rstrip` of the address's trailing punctuation (`UrlFacts`) |
| TaskParser.ParseLines | src/parser.py:24-77 | the parse loop over the yielded lines computes the task list of the lines |
| TaskParser.Parse | src/parser.py:16-77 | `parse` on a document gives the task list of the lines the reader yields |
| TaskParser.PendingClean | src/parser.py:36-74 | the buffer never holds an empty line, the page marker or a line with an address, so filtering the marker out of it removes nothing |
| TaskParser.PendingKeeps | src/parser.py:27-74 | a line that is neither a page marker nor an address line is appended to the buffer when non-empty, and does not move the last reset |
| TaskParser.PendingAfterReset | src/parser.py:27-74 | the buffer is exactly the non-empty lines after the last page marker or address line |
| TaskParser.LastReset | src/parser.py:36-43 | the index found is a marker or address line and no later line is one |
| TaskParser.MarkerNoUrl | src/parser.py:36-41 | the page marker holds no address |
| TaskParser.TaskKeys | src/parser.py:62-69 | a task has exactly the six keys source, date, title, url, snippet and original_snippet; its url is the cleaned address, title is `None`, and snippet equals original_snippet |
| TaskParser.TaskFields | src/parser.py:48-69 | source is the first buffered line or "Unknown Source", date the second or "Unknown Date", the snippet the rest joined by line feeds, or "" |
| TaskParser.TasksUrls | src/parser.py:32-74 | there is one task per line holding an address, in order, and each carries that line's cleaned address |
| TaskParser.MakeTask | src/parser.py:48-69 | the task record of a buffer and an address (`TaskKeys`, `TaskFields`) |
| TaskParser.Tasks | src/parser.py:24-77 | the tasks of the lines: one per line with an address, built from the buffered lines since the last reset (`TasksUrls`, `PendingAfterReset`) |
| TaskParser.Without | src/parser.py:50 | the filtered list holds no page marker |
| Extractor.TraverseFacts | src/scraper.py:205-215 | a traversal returns paths that name elements which the filter accepts and does not reject, skipping rejected subtrees, under its base from its start child on, in document order |
| Extractor.VisitFacts | src/scraper.py:205-215 | every node the tree walker visits exists, and the visit order is document order (no node comes after one of its descendants) |
| Extractor.ParagraphsFacts | src/scraper.py:221 | `querySelectorAll('p')` returns existing elements in document order |
| Extractor.Visit | src/scraper.py:205-215 | the tree walker's order: the descendants of the body in pre-order, pruning a blacklisted element with its subtree and skipping (but descending into) one whose trimmed text is under 70 units (`VisitFacts`) |
| Extractor.AddCandidate | src/scraper.py:188-202 | a node that exists and `Accepts` is appended with its text; otherwise the candidates are unchanged (`AddKeepsGood`) |
| Extractor.Accepts | src/scraper.py:187-202 | `addCandidate` admits an element exactly when it is not blacklisted, its trimmed text is 70 to 2500 units, no earlier candidate contains it, and no child's trimmed text is 60% of its own |
| Extractor.Candidates | src/scraper.py:205-222 | the walk's candidates, or the `<p>` fallback's when the walk accepted none (`CandidatesGood`) |
| Extractor.AddKeepsGood | src/scraper.py:188-203 | offering a visited node keeps every candidate admissible, none containing another or the same element, and nothing still to be visited an ancestor of a candidate; it adds at most one |
| Extractor.ScanGood | src/scraper.py:215-218 | the walk loop keeps the candidates good, stops at 50, and below 50 it has offered every visited node |
| Extractor.AddEachGood | src/scraper.py:220-222 | the fallback loop keeps the candidates good and only adds to them |
| Extractor.WalkPhaseFacts | src/scraper.py:215-218 | the walk yields at most 50 good candidates, and fewer only when it ran through every visited node |
| Extractor.CandidatesGood | src/scraper.py:187-222 | every candidate of the walk or of the `<p>` fallback is admissible (not blacklisted, 70 to 2500 UTF-16 code units once trimmed, no child with 60% of that), and none contains another or repeats it |
| Extractor.AnchorFacts | src/scraper.py:164-175 | the climb of `describe` stops at the nearest ancestor-or-self with an id, or at the body when there is none |
| Extractor.SegmentsShape | src/scraper.py:161-185 | the element where the climb stops gives the leading segments (`tag#id`, or `html` or `html#id` then the body's tag), and each element below it on the path adds one segment, outermost first |
| Extractor.NthOfTypeInRange | src/scraper.py:176-180 | the `:nth-of-type(k)` index is between 1 and the number of same-tag siblings |
| Extractor.Lead | src/scraper.py:164-175 | the climb ends in `tag#id` at an element with an id; at the body without one, in the `html` element's segment (`html#id` when it has an id) and the body's tag |
| Extractor.Segments | src/scraper.py:161-183 | the segments, outermost first: those of the parent then the element's tag with `:nth-of-type` when same-tag siblings exist, until an element with an id or the body (`SegmentsShape`) |
| Extractor.Selector | src/scraper.py:184 | the segments joined by " > " |
| Extractor.Describe | src/scraper.py:161-185 | the climbing loop of `describe` builds the selector of the element's path, ending at the body's parent `html` element with its id when it has one |
| Extractor.BlockIdInjective | src/scraper.py:228 | different block numbers give different ids |
| Extractor.BuildBlocksFacts | src/scraper.py:224-232 | the blocks are the first min(30, n) candidates, numbered `block-1` on, each with its element's selector and its text |
| Extractor.BlockTextsInBand | src/scraper.py:191-202 | every block text is 70 to 2500 UTF-16 code units long once trimmed |
| Extractor.ExtractFacts | src/scraper.py:156-235 | the script returns at most 30 blocks, numbered in order, each an admissible candidate's text (70 to 2500 UTF-16 code units once trimmed) and selector, with no block's element inside another's |
| Extractor.Extract | src/scraper.py:156-235 | the script's result: the numbered blocks of the candidates (`ExtractFacts`) |
| Extractor.CollectTextBlocks | src/scraper.py:187-234 | the script's three loops compute the blocks of the tree |
| Extractor.WalkLoop | src/scraper.py:215-218 | the walker loop, with its break at 50 candidates, computes the walk phase |
| Extractor.FallbackLoop | src/scraper.py:220-222 | the `<p>` loop offers every paragraph in turn |
| Extractor.NumberBlocks | src/scraper.py:224-232 | the numbering loop builds the blocks of the first (at most 30) candidates |
| Extractor.SameTag | src/scraper.py:176 | no more same-tag siblings than siblings |
| BlockFilter.Rank | src/scraper.py:251-253 | the ranking of n blocks is a permutation of their indices, longest text first, equal lengths in their original order (Python's stable `sorted(..., reverse=True)`) |
| BlockFilter.Insert | src/scraper.py:253 | inserting one more index keeps the ranking a permutation and keeps it ranked |
| BlockFilter.SortedFacts | src/scraper.py:251-253 | the sorted blocks are the input blocks in ranking order: each index appears, texts do not get longer going down, and ties keep input order |
| BlockFilter.Sorted | src/scraper.py:253 | `sorted_blocks` are the blocks in ranking order, as many as there are blocks (`SortedFacts`) |
| BlockFilter.FallbackTexts | src/scraper.py:251-309 | the fallback holds min(5, n) texts (`FallbackFacts`) |
| BlockFilter.FallbackFacts | src/scraper.py:251-309 | the fallback keeps min(5, n) texts, those of the highest-ranked blocks, each an input block's text, longest first |
| BlockFilter.MakePreview | src/scraper.py:255-261 | a preview keeps the id and selector and shows the first 500 characters with each line feed replaced by a space |
| BlockFilter.MakeRequest | src/scraper.py:269-282 | the request names the article title, or "unknown" when it is falsy |
| BlockFilter.Locate | src/scraper.py:284-289 | no object is found exactly when the reply lacks `{` or `}`; otherwise the candidate is the slice from the first `{` to the last `}` |
| BlockFilter.LocateBraces | src/scraper.py:285-289 | a non-empty located text starts with `{` and ends with `}` |
| BlockFilter.ItemIds | src/scraper.py:298-302 | a list item yields at most one id |
| BlockFilter.GatherFirstYielding | src/scraper.py:294-304 | the key loop's ids are those of the first of selected, keep and blocks whose list yields any, and none when no key does |
| BlockFilter.GatherIds | src/scraper.py:294-304 | the nested loop fills `selected_ids` with the gathered ids |
| BlockFilter.Gather | src/scraper.py:294-304 | the key loop over selected, keep and blocks, stopping after a list key once any id is gathered (`GatherFirstYielding`) |
| BlockFilter.AppendIds | src/scraper.py:298-302 | the inner loop appends each item's ids in order |
| BlockFilter.HashError | src/scraper.py:306 | `set(selected_ids)` raises exactly when some id is a list or an object |
| BlockFilter.ResolveFacts | src/scraper.py:307 | the resolved texts are those of the chosen blocks, in their original order: every block is chosen exactly when its index is picked, and the picked indices increase |
| BlockFilter.NoneChosen | src/scraper.py:307-309 | when no block is chosen the resolved list is empty |
| BlockFilter.Resolve | src/scraper.py:307 | the texts of the blocks whose string id is gathered, in block order (`ResolveFacts`) |
| BlockFilter.Decide | src/scraper.py:294-311 | after the request: the fallback without a verdict, the `TypeError` for an unhashable id, else the chosen texts or the fallback when none is chosen (`DecideFacts`) |
| BlockFilter.FilterBlocks | src/scraper.py:243-311 | `_filter_blocks_with_llm`: nothing for no blocks, the fallback without a client, else the request's verdict decided (`FilterNonEmpty`) |
| BlockFilter.DecideFacts | src/scraper.py:294-311 | no verdict gives the fallback; an unhashable id is an error; otherwise the chosen texts when some block is chosen, else the fallback; a non-empty input never gives an empty success |
| BlockFilter.FilterNonEmpty | src/scraper.py:247-311 | empty input gives an empty result; without a client the result is the fallback; any other non-empty input gives a non-empty result unless it is an error |
| BlockFilter.FailedReplyFallsBack | src/scraper.py:284-292 | a failed request, a reply without braces, or one the parser refuses all give the fallback |
| BlockFilter.Verdict | src/scraper.py:284-292 | the parsed object, or none when the request failed, the stripped reply has no braces, or the parser refuses the text between them |
| BlockFilter.ChosenOnlyByString | src/scraper.py:307 | only a string id equal to the block's id chooses a block |
| BlockFilter.Lengths | src/scraper.py:253 | the sort key of each block is the length of its text |
| BlockFilter.Texts | src/scraper.py:625 | one text per block, in order |
| Scraper.HeadlessForcing | src/scraper.py:32-37 | window capture or an extension forces a visible browser; otherwise the requested mode is kept; and a forced mode is headless only when requested |
| Scraper.ForceHeadless | src/scraper.py:32-37 | headless mode is off when window capture or an extension is on, else as requested (`HeadlessForcing`) |
| Scraper.LaunchFlagsAgree | src/scraper.py:89-103 | the persistent and the fresh launch compose the same flags |
| Scraper.ExtensionArgsUnmasked | src/scraper.py:83-87 | neither extension flag is the mask flag |
| Scraper.LaunchFlagsFacts | src/scraper.py:82-103 | the flags are the two extension flags (when an extension is given) then the user's flags, followed only by the mask flag, exactly when masking is on and the user did not pass it; then it appears exactly once |
| Scraper.LaunchFlags | src/scraper.py:82-103 | the launch flags: extension flags, the user's flags, and the mask flag when masking is on and it is missing (`LaunchFlagsFacts`) |
| Scraper.WebScraper.constructor | src/scraper.py:18-62 | the settings hold the forced headless mode and the flags (or `[]`); a model client exists only when the model is on and a base URL is given; no session is open |
| Scraper.WebScraper.EnsureContext | src/scraper.py:71-108 | an open context is kept; a driver that fails to start changes nothing; otherwise the driver is running and a persistent context (with a user data dir) or a browser and a fresh context opens with the composed flags, and a step that raises leaves no context |
| Scraper.WebScraper.Close | src/scraper.py:112-128 | the context is always forgotten; an exception closing it escapes before the browser is touched; the browser is forgotten next, and the session is stopped and forgotten last, remaining only when stopping raised |
| Scraper.WebScraper.ProcessUrl | src/scraper.py:521-659 | a browser launch that raises escapes and leaves the entry as it was; after a launch that succeeds, the entry ends as the outcome of the steps records it |
| Scraper.WebScraper.RecordText | src/scraper.py:618-645 | the text step writes the selected block texts, or the raw page text when there is no block |
| Scraper.WebScraper.RecordRaw | src/scraper.py:629-645 | without blocks, the raw page text is the only block and its cleaned form the full text |
| Scraper.WebScraper.RecordBlocks | src/scraper.py:620-645 | with blocks, the selected texts are the blocks and the non-empty ones joined by blank lines the full text |
| Scraper.CollapseRuns | src/scraper.py:145 | `re.sub(r"[^a-zA-Z0-9]+", "-", s)` leaves only letters, digits and dashes |
| Scraper.CollapseKeepsAlnums | src/scraper.py:145 | collapsing keeps every letter and digit, in order |
| Scraper.SkipRun | src/scraper.py:145 | a run of other characters is skipped up to the next letter or digit |
| Scraper.OrPage | src/scraper.py:145 | a non-empty name is kept |
| Scraper.NameFacts | src/scraper.py:143-145 | the name part of a slug is never empty, holds only letters, digits and dashes, and starts and ends with a letter or digit |
| Scraper.NameKeepsAlnums | src/scraper.py:143-145 | the name keeps the letters and digits of the address's host and path, in order, whenever there are any |
| Scraper.Slug | src/scraper.py:146-147 | the slug is at most 80 name characters, a dash and at most ten digest characters |
| Scraper.SlugFacts | src/scraper.py:147 | a slug ends with a dash and the digest's first ten characters, after one to 80 name characters that start with a letter or digit |
| Scraper.Slugify | src/scraper.py:141-147 | `_slugify_url`: the name of the host and path cut to 80 characters, a dash and ten digest characters (`Slug`, `SlugFacts`) |
| Scraper.ScreenshotPath | src/scraper.py:149-150 | the path is `<dir>/<prefix>_<slug>.png` |
| Scraper.TelegramHrefCaseless | src/scraper.py:405-409 | whether an href is a Telegram link does not depend on its letter case |
| Scraper.IsTelegramHref | src/scraper.py:405-409 | an href is a Telegram link when it is non-empty and, lower-cased, starts with `tg:` or contains `t.me` |
| Scraper.PhrasesClean | src/scraper.py:638-639 | the phrases of the raw text hold no line feed and are stripped |
| Scraper.LinePhrasesClean | src/scraper.py:639 | the phrases of one line hold no line feed and are stripped |
| Scraper.CleanTextLines | src/scraper.py:637-640 | the cleaned text split on line feeds gives back exactly its chunks, each non-empty and stripped |
| Scraper.CleanText | src/scraper.py:637-640 | the stripped phrases between double spaces of the stripped lines, non-empty ones joined by line feeds (`CleanTextLines`) |
| Scraper.KeysDistinct | src/scraper.py:614-651 | the keys written on failure, on success and for the Telegram capture are distinct |
| Scraper.SucceededFacts | src/scraper.py:641-645 | a completed run sets the blocks, the screenshot path, the full text and `success`, and changes no other key |
| Scraper.WrittenShape | src/scraper.py:618-645 | the text step either raises and leaves the entry unchanged, or completes the run |
| Scraper.AttemptShape | src/scraper.py:572-645 | a step that raises leaves the entry as it was, apart from the Telegram path at most; a run where no step raised completes it |
| Scraper.Attempt | src/scraper.py:572-645 | the steps in order (navigation, the wait after the Telegram click, the screenshot, the Telegram capture, the text), stopping at the first that raises with the entry as it then stands (`AttemptShape`, `FirstFailureWins`) |
| Scraper.TelegramAttempted | src/scraper.py:593-596 | the click runs, and the wait after it and the Telegram capture follow, only with capture and interaction on and the click reported |
| Scraper.ScreenshotStep | src/scraper.py:598-607 | with window capture, reading the title or an exception other than `ImportError` from the capture imports (src/scraper.py:329-333, 354-358) raises, a failed capture falls back to the viewport screenshot; without it, the viewport screenshot (`FirstFailureWins`) |
| Scraper.Marked | src/scraper.py:610-613 | the Telegram path is recorded only when the capture was attempted and succeeded (`AttemptShape`) |
| Scraper.Written | src/scraper.py:616-645 | the selected block texts, or the raw text when there is no block, then the screenshot path, the full text and `success`; a raised selection or `content()` leaves the entry as it was (`WrittenShape`, `WithoutModel`, `RawFallback`) |
| Scraper.Finish | src/scraper.py:646-649 | an exception is recorded as status `failed` and its message under `error` (`OutcomeFacts`) |
| Scraper.OutcomeFacts | src/scraper.py:572-651 | the status is `success` exactly when no step raised; a failed entry carries the exception's message; a successful one keeps every other key |
| Scraper.FirstFailureWins | src/scraper.py:575-618 | the first step to raise decides the message: navigation, then the 1500 ms wait after a successful Telegram click, then the screenshot, then the Telegram capture |
| Scraper.WithoutModel | src/scraper.py:620-628 | without the model the text step cannot raise: the block texts are kept as they are and the full text is the non-empty ones joined by blank lines |
| Scraper.RawFallback | src/scraper.py:629-641 | without blocks the step completes exactly when the page text is read, raising that read's exception otherwise, and records the raw text and its cleaned form |
| ReportWriter.PreservedFacts | src/writer.py:102-111 | empty text adds nothing; otherwise one left-aligned paragraph per line-feed-separated piece, empty pieces included, and joining them gives the text back |
| ReportWriter.Preserved | src/writer.py:102-111 | `_add_preserved_paragraphs`: one left-aligned paragraph per `split('\n')` piece of a non-empty text (`PreservedFacts`) |
| ReportWriter.ReportGenerator.constructor | src/writer.py:13-15 | a new report has its output file and an empty document |
| ReportWriter.ReportGenerator.AddPreservedParagraphs | src/writer.py:102-111 | the loop appends the text's paragraphs and nothing else |
| ReportWriter.ReportGenerator.AddSnippet | src/writer.py:30-31 | the snippet's paragraphs are appended only when it is non-empty |
| ReportWriter.ReportGenerator.AddUrlLine | src/writer.py:32-36 | the address becomes one link-styled paragraph, only when it is non-empty |
| ReportWriter.ReportGenerator.AddMetadata | src/writer.py:23-38 | the source, date, snippet, address and separator are appended in that order |
| ReportWriter.ReportGenerator.AddScreenshot | src/writer.py:41-57 | the caption and the picture, or the insertion-error notice, only when the path is set and the file exists |
| ReportWriter.ReportGenerator.AddBlocks | src/writer.py:64-66 | the loop appends each block's paragraphs in order |
| ReportWriter.ReportGenerator.AddBody | src/writer.py:63-73 | the blocks' paragraphs, else the snippet's, else the full text's |
| ReportWriter.ReportGenerator.AddErrorNotice | src/writer.py:76-79 | a failure notice only when there is a message |
| ReportWriter.ReportGenerator.AddEntry | src/writer.py:17-82 | an entry appends exactly its sections to the report, in order, and nothing else |
| ReportWriter.MetadataCounts | src/writer.py:23-38 | the metadata holds no page break, notice or picture, and one link exactly when the address is non-empty |
| ReportWriter.PictureCounts | src/writer.py:41-57 | a screenshot section holds no page break, notice or link, and its picture exactly when the screenshot is shown |
| ReportWriter.BodyCounts | src/writer.py:63-73 | the body holds no page break, notice, link or picture |
| ReportWriter.ErrorCounts | src/writer.py:18-79 | the error section holds one notice exactly when the status is `failed`, and nothing else |
| ReportWriter.EntryCounts | src/writer.py:17-82 | an entry holds one page break, one notice exactly when it failed, and one link exactly when its address is non-empty |
| ReportWriter.MetadataOps | src/writer.py:23-38 | the source, date, snippet, address and separator paragraphs, in order (`MetadataCounts`, `MetadataStartsWithSourceDate`) |
| ReportWriter.PictureOps | src/writer.py:41-57 | a caption and the picture, or the caption and the error notice, only when the path is set and the file exists (`PictureCounts`) |
| ReportWriter.BodyOps | src/writer.py:63-73 | the blocks' paragraphs, else the snippet's, else the full text's (`BodyCounts`, `BodyFacts`) |
| ReportWriter.ErrorOps | src/writer.py:18-79 | one failure notice with the record's message or the default, only for a failed record (`ErrorCounts`) |
| ReportWriter.EntryOps | src/writer.py:17-82 | everything `add_entry` appends: metadata, the two screenshots, the body, the error notice and a page break (`EntryCounts`, `ErrorIffFailed`) |
| ReportWriter.EntryEndsWithPageBreak | src/writer.py:82 | every entry ends with its page break, and it is the only one |
| ReportWriter.ErrorIffFailed | src/writer.py:18-82 | a notice appears exactly when the record failed, once, just before the page break, with the record's error or the default message |
| ReportWriter.LinkIffUrl | src/writer.py:26-36 | the address appears once, styled as a link, exactly when the record has a non-empty address |
| ReportWriter.PicturesInOrder | src/writer.py:41-57 | the pictures are the Telegram capture and then the article screenshot, each only when shown |
| ReportWriter.EntryStartsWithMetadata | src/writer.py:22-38 | an entry opens with its metadata |
| ReportWriter.MetadataStartsWithSourceDate | src/writer.py:23-29 | the metadata opens with the source paragraphs, then the date paragraphs |
| ReportWriter.MetadataLeads | src/writer.py:23-29 | an entry opens with left-aligned paragraphs that spell the source line, then the date line |
| ReportWriter.SourceDateDefaults | src/writer.py:23-24 | the source and date lines fall back to their defaults exactly when the value is missing or falsy |
| ReportWriter.BlocksText | src/writer.py:64-66 | the paragraphs of the content blocks spell the non-empty blocks joined by line feeds; empty blocks add nothing |
| ReportWriter.BodyFacts | src/writer.py:63-73 | the body is left-aligned paragraphs spelling the article text: the non-empty blocks, else the snippet, else the full text |
| ReportWriter.LeftPlain | src/writer.py:109-111 | left-aligned paragraphs are no page break, notice, link or picture |
| Cli.StrToBool | main.py:21-29 | a flag is returned as is; a word is true exactly when its stripped, lower-cased form is a true word, false exactly when it is a false word, and an error otherwise |
| Cli.WordValue | main.py:25-29 | the comparisons accept exactly the listed words |
| Cli.WordsDisjoint | main.py:25-28 | no word means both true and false |
| Cli.WordsAccepted | main.py:24-28 | every listed word is accepted as written |
| Cli.StrToBoolCaseless | main.py:24 | lower-casing the argument first changes nothing |
| Cli.EnvBool | main.py:31-39 | the default when the variable is unset or not a boolean word; the word's value otherwise |
| Cli.ExistingPath | main.py:85-91 | a path that is set but not on disk is dropped; any other is kept |
| Cli.NormaliseOptions | main.py:85-101 | after normalisation window capture implies a visible browser, the model implies a base URL (the local default when none was given), set paths exist, and the flags are a list |
| Cli.NormaliseIdempotent | main.py:85-101 | normalising twice is normalising once |
| Cli.Args.Normalise | main.py:85-101 | the steps of `parse_args`, in order, give the normalised options |
| Cli.FieldText | main.py:115-118 | `get(key, default)` reads the default only when the key is absent |
| Cli.WriteTaskPreview | main.py:105-131 | no tasks writes nothing; otherwise the file is the preview lines joined by line feeds |
| Cli.AddTaskLines | main.py:114-129 | the loop body appends the task's group, numbered by its position |
| Cli.AddGroup | main.py:121-129 | a group is the heading, date and source lines, the snippet line when the snippet is non-empty, the URL line and a blank line |
| Cli.GroupHeading | main.py:121-122 | the heading is the only line of a group that begins with "## " |
| Cli.GroupSnippet | main.py:119-127 | a group has a snippet line exactly when the stripped snippet is non-empty |
| Cli.GroupsHeadings | main.py:114-129 | the heading lines of the groups are the tasks' headings, one per task, numbered from 1 |
| Cli.GroupsSnippets | main.py:114-129 | the snippet lines are those of the tasks with a non-empty stripped snippet, in order |
| Cli.PreviewHeadings | main.py:113-129 | the preview's heading lines are the tasks' headings in order |
| Cli.PreviewSnippets | main.py:113-129 | the preview's snippet lines are those of the tasks with a non-empty snippet, in order |
| Cli.PreviewOpens | main.py:113 | the preview opens with its title and a blank line |
| Cli.HeaderUnmarked | main.py:113 | the title lines hold no heading and no snippet line |
| Cli.PreviewLines | main.py:113-129 | the preview: title, blank line, then one group per task, numbered from 1 (`PreviewHeadings`, `PreviewSnippets`) |
| Cli.ParsedPreviewable | main.py:105-131 | every parsed task has a string `original_snippet`, so the preview of the parsed tasks can be written |
| Cli.TakeFirst | main.py:150-152 | `tasks[:max_tasks]` is a prefix: all tasks without a limit, the first n for n >= 0, all but the last -n for n < 0 |
| Cli.ProcessAll | main.py:176-179 | the tasks are processed in order until the first whose launch raises: each task before it launched and is updated by `process_url` with its own page, and those tasks are returned; that launch's exception escapes (`Done` when every launch succeeds), and that task and the later ones are untouched |
| Cli.ProcessOne | main.py:177-179 | one iteration passes on the launch's outcome: a launch that raises leaves the task unchanged, otherwise the task ends as `process_url` records it |
| Cli.WriteReport | main.py:182-184 | the report gets the entries of the processed tasks, in order, and nothing else |
| Cli.ReportOps | main.py:182-184 | the report is each entry's operations, one entry after another (`ReportCounts`) |
| Cli.ParsedPrintable | src/writer.py:17-82 | every parsed task holds strings or nothing in the fields the report prints as text |
| Cli.MakeTaskPrintable | src/parser.py:62-69 | a task record holds strings in the fields the report prints, and lacks the others |
| Cli.OutcomePrintable | src/scraper.py:572-651 | `process_url` writes only strings, and the block list under a key not printed as text, so a printable entry stays printable |
| Cli.MainRecordsFit | main.py:150-184 | the kept parsed tasks can be previewed and, once processed with their pages, printed: the preview's and the report's preconditions hold for what `main` passes |
| Cli.ReportCounts | main.py:182-184 | a report of n entries has n page breaks and one failure notice per failed entry |
| Text.Trim | src/scraper.py:144-145 | `strip(chars)`: neither end is of the stripped class, and the result is no longer than the text |
| Text.JsLength | src/scraper.py:191-198 | JavaScript's `length` counts between one and two units per character |
| Text.JsLengthPlain | src/scraper.py:191-198 | the JavaScript length equals the number of characters exactly when none lies outside the Basic Multilingual Plane |
| Text.JsLengthConcat | src/scraper.py:191-198 | the JavaScript length of a concatenation is the sum of the lengths |
| Text.TrimSlice | main.py:24 | the stripped text is the slice between the text's leading and trailing runs of stripped characters |
| Text.TrimFilter | src/scraper.py:145 | stripping characters that are never kept loses none of the kept ones |
| Text.JoinSplit | src/writer.py:109 | joining the pieces of `split(sep)` with `sep` gives the text back |
| Text.SplitJoin | src/scraper.py:640 | splitting a join on a one-character separator that no part contains gives the parts back |
| Text.SplitLines | src/scraper.py:638 | `splitlines` yields no line for the empty text and at least one otherwise, and no line holds a line boundary |
| Text.SplitLinesJoin | src/scraper.py:638 | when the line feed is the only boundary, the lines joined by line feeds give the text back, less a final line feed |
| Text.Split | src/writer.py:109 | `split` yields at least one piece |
| Text.Lower | src/scraper.py:407 | lower-casing maps each character, keeping the length |
| Text.LowerIdempotent | main.py:24 | lower-casing twice is lower-casing once |
| Text.StripLower | main.py:24 | `s.strip().lower()` equals `s.lower().strip()` |
| Text.Decimal | src/scraper.py:228 | a number printed in decimal: digits only, no leading zero |
| Text.DecimalRoundTrip | src/scraper.py:228 | reading back a printed number gives the number |
| Text.DecimalInjective | src/scraper.py:228 | different numbers print differently |
| Text.Find | src/scraper.py:285 | `find` gives the first index of the character, or -1 when it is absent |
| Text.RFind | src/scraper.py:286 | `rfind` gives the last index of the character, or -1 when it is absent |
| Text.Slice | src/scraper.py:289 | Python slicing: the sub-sequence when in range, empty when the end is not after the start |
| Text.Prefix | src/scraper.py:260 | `s[:n]` is the first min(n, len(s)) elements |
| Text.ReplaceChar | src/scraper.py:256 | `replace` with one character changes exactly its occurrences |
| Text.NonEmpty | src/scraper.py:627 | the filter keeps only non-empty members of the list |
| Text.TakeWhile | src/parser.py:30 | the longest prefix of the accepted class |
| Records.Get | src/writer.py:19 | `get(key)` reads `None` for a missing key and the value otherwise |
| Records.GetOr | main.py:115-119 | `get(key, default)` reads the default only for a missing key |
| Records.Or | src/writer.py:20 | `a or b` is `a` when truthy and `b` otherwise |

## Left out

- Playwright itself (starting the driver, launching, `goto`, the waits, `title`, screenshots,
  `content`) is not executed: the outcome of each call that can raise is an input of
  `_ensure_context` or `process_url`.
- `_apply_automation_mask`, the dialog handler, the cookie-banner click,
  `_hide_automation_banner`, `_mask_screenshot_area` and `_dismiss_telegram_prompt` are not
  modelled. Each of them catches its own exceptions and changes only the page or the image.
- The Telegram overlay scripts are not modelled beyond `isTelegramHref`. Whether the
  "open in Telegram" click happened is an input.
- Window capture with pyautogui and PIL (`_activate_browser_window`,
  `_capture_screen_with_pyautogui`, `_capture_with_imagegrab`, `_capture_telegram_app_window`)
  is given as outcomes: whether the window was captured, or the exception an import raises
  when it is not `ImportError`, and the Telegram capture's result or exception.
- The model call and `json.loads` are functions given as inputs. The fixed instruction
  text of the request is not modelled.
- `hashlib.sha1`, `urlparse` and Python's `hash(url)` are not computed: the digest, the
  host and path, and the two screenshot paths are inputs.
- BeautifulSoup parsing is not modelled: the raw page text is an input.
- `process_url`'s own browser launch (src/scraper.py:531-570) composes the same flags as
  `_ensure_context`. It is one input step: its flags are not modelled separately, and neither
  is closing its context and browser. When it raises, the exception leaves `process_url`
  and `main` before any report is written; `main`'s run after that is not modelled.
- `process_url` reads `entry['url']` outside its `try`. A record without a url would raise
  there; every parsed task has one.
- Scraper.WebScraper.ProcessUrl: the contract records only the entry's final fields; the
  logs and the files written are not modelled.
- ReportWriter.PictureOps: when `add_picture` raises, python-docx may already have added an
  empty paragraph before the error notice; the model has only the notice.
- ReportWriter.ReportGenerator.AddScreenshot: the same leftover empty paragraph is not in the
  document it builds.
- Records.Render: a list is rendered with each item in single quotes and nothing escaped.
  Python's `repr` differs for items holding a quote, a backslash or a non-printable
  character. No record the parser or `process_url` builds reaches this case.
- BlockFilter.MakeRequest: states only the title. The model name, temperature and token
  limit are constants in its body, and the block payload is not specified further.
- `_clean_temp_dir` and the creation of the screenshot directory are file system effects
  and are not modelled.
- Reading the Word document is not modelled: the document is given as paragraphs of runs of
  children. Writing and `save()` are not modelled either: the report is the list of
  operations `add_entry` performs.
- argparse, `os.getenv`, `_env_int`, `_env_list`, the input-file check and `sys.exit` are
  not modelled. The environment is a map and existence on disk a predicate.
- Logging is not modelled: it has no effect on results.
- asyncio is not modelled: the steps run one after another, as the code awaits them.
- `main` is not modelled as one sequence: parsing, the task cut, the preview, the scrape
  loop and the report loop are separate members.
- Cli.WriteTaskPreview: returns the file's text instead of writing it to disk.
- Text.Lower: lower-cases ASCII letters only. Every word and prefix compared after
  lower-casing (`true`, `yes`, `tg:`, `t.me` and the rest) is ASCII, so the comparisons are
  unaffected; the result differs from Python's for other letters.
- Extractor.Lead: the body is taken to be the only `body` child of `html`, so its segment
  never carries `:nth-of-type`, and the `html` element's tag is taken to be `html`.
- CSS rendering is not modelled: each DOM node carries its rendered `innerText`, and every
  node of the tree is connected (`isConnected` always holds).
