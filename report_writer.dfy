/** The report writer: each processed task record is laid out as a run of document
    operations (paragraphs, pictures, a page break) appended to the report. The document
    library itself is not modelled; the report is the sequence of operations requested
    from it. */
module ReportWriter {
  import opened Wrappers
  import opened Text
  import opened Records

  /** The formatting a paragraph is given: left-aligned preserved text, a plain paragraph,
      the blue underlined address line, or the bold red failure notice. */
  datatype Style = LeftAligned | Plain | Link | Alert

  datatype DocOp = Para(text: string, style: Style) | Picture(path: string) | PageBreak

  const UnknownError := "Неизвестная ошибка"
  const EntrySeparator := "▌"
  const TelegramLabel := "Telegram App Screenshot:"
  const ArticleLabel := "Article Screenshot:"
  const TelegramErrorPrefix := "[Error inserting Telegram image: "
  const ArticleErrorPrefix := "[Error inserting image: "

  /** The failure notice for a given message. */
  function ErrorLine(message: string): string {
    "Ошибка обработки: " + message + ". Не удалось получить все данные."
  }

  // ---------------------------------------------------------------------------------
  // Preserved paragraphs

  function LeftParas(lines: seq<string>): (r: seq<DocOp>)
    ensures |r| == |lines|
  {
    seq(|lines|, i requires 0 <= i < |lines| => Para(lines[i], LeftAligned))
  }

  /** `_add_preserved_paragraphs`: nothing for empty text, otherwise one left-aligned
      paragraph per line-feed-separated piece. */
  function Preserved(text: string): seq<DocOp> {
    if text == "" then [] else LeftParas(Split(text, "\n"))
  }

  /** The texts of a run of paragraphs. */
  function Texts(ops: seq<DocOp>): (r: seq<string>)
    ensures |r| == |ops|
  {
    seq(|ops|, i requires 0 <= i < |ops| => if ops[i].Para? then ops[i].text else "")
  }

  predicate AllLeft(ops: seq<DocOp>) {
    forall i :: 0 <= i < |ops| ==> ops[i].Para? && ops[i].style == LeftAligned
  }

  lemma TextsAppend(a: seq<DocOp>, b: seq<DocOp>)
    ensures Texts(a + b) == Texts(a) + Texts(b)
  {
    assert forall i :: 0 <= i < |a + b| ==> Texts(a + b)[i] == (Texts(a) + Texts(b))[i];
  }

  /** Preserved text is only left-aligned paragraphs, none for empty text; otherwise
      their texts are the pieces of the text and, joined again by line feeds, give the
      text back, empty pieces included. */
  lemma PreservedFacts(text: string)
    ensures AllLeft(Preserved(text))
    ensures text == "" <==> Preserved(text) == []
    ensures text != "" ==> Texts(Preserved(text)) == Split(text, "\n")
    ensures Join(Texts(Preserved(text)), "\n") == text
  {
    if text != "" {
      var lines := Split(text, "\n");
      assert Texts(LeftParas(lines)) == lines;
      JoinSplit(text, "\n");
    }
  }

  // ---------------------------------------------------------------------------------
  // The sections of an entry

  /** The fields the layout uses as text must be strings or absent: the code calls
      string methods on them. */
  predicate Printable(entry: Entry) {
    && StrOrNone(Get(entry, "source")) && StrOrNone(Get(entry, "date"))
    && StrOrNone(Get(entry, "snippet")) && StrOrNone(Get(entry, "original_snippet"))
    && StrOrNone(Get(entry, "url")) && StrOrNone(Get(entry, "full_text"))
    && StrOrNone(Get(entry, "telegram_screenshot_path")) && StrOrNone(Get(entry, "screenshot_path"))
  }

  function SourceLine(entry: Entry): string {
    TextOf(Or(Get(entry, "source"), VStr("Unknown Source")))
  }

  function DateLine(entry: Entry): string {
    TextOf(Or(Get(entry, "date"), VStr("Unknown Date")))
  }

  function SnippetLine(entry: Entry): string {
    TextOf(Or(Or(Get(entry, "snippet"), Get(entry, "original_snippet")), VStr("")))
  }

  function UrlLine(entry: Entry): string {
    TextOf(Or(Get(entry, "url"), VStr("")))
  }

  function SnippetOps(entry: Entry): seq<DocOp> {
    var snippet := SnippetLine(entry);
    if snippet != "" then Preserved(snippet) else []
  }

  function UrlOps(entry: Entry): seq<DocOp> {
    var url := UrlLine(entry);
    if url != "" then [Para(url, Link)] else []
  }

  /** Source, date, optional snippet, optional address line, then the separator mark. */
  function MetadataOps(entry: Entry): seq<DocOp> {
    Preserved(SourceLine(entry)) + Preserved(DateLine(entry)) + SnippetOps(entry) + UrlOps(entry)
    + Preserved(EntrySeparator)
  }

  /** A screenshot section: its caption, then the picture, or a notice when inserting it
      raised (`insert` gives the exception's text); nothing when the path is unset or
      no such file exists. */
  function PictureOps(path: Val, caption: string, errorPrefix: string,
                      fileExists: string -> bool, insert: string -> Option<string>): seq<DocOp> {
    if Truthy(path) && fileExists(TextOf(path)) then
      [Para(caption, Plain)]
      + (match insert(TextOf(path))
         case None => [Picture(TextOf(path))]
         case Some(e) => [Para(errorPrefix + e + "]", Plain)])
    else []
  }

  /** The items iterated over as content blocks: a list's members, or the characters
      of a string. */
  function BlockItems(v: Val): seq<string> {
    match v
    case VList(items) => items
    case VStr(s) => seq(|s|, i requires 0 <= i < |s| => [s[i]])
    case VNone => []
  }

  function BlockParas(blocks: seq<string>): seq<DocOp> {
    if blocks == [] then []
    else BlockParas(blocks[..|blocks| - 1]) + Preserved(blocks[|blocks| - 1])
  }

  /** The article text: the content blocks when there are any, else the snippet when it
      is non-empty, else the full text. */
  function BodyOps(entry: Entry): seq<DocOp> {
    var blocks := Get(entry, "text_blocks");
    var snippet := Get(entry, "snippet");
    if Truthy(blocks) then BlockParas(BlockItems(blocks))
    else if Truthy(snippet) then Preserved(TextOf(snippet))
    else Preserved(TextOf(GetOr(entry, "full_text", VStr(""))))
  }

  /** The message of the failure notice: only a failed record has one, and then it is
      its error, or the fixed default when the error is missing or empty. */
  function ErrorMessage(entry: Entry): Val {
    if Get(entry, "status") == VStr("failed") then Or(Get(entry, "error"), VStr(UnknownError)) else VNone
  }

  function ErrorOps(entry: Entry): seq<DocOp> {
    var message := ErrorMessage(entry);
    if Truthy(message) then [Para(ErrorLine(Render(message)), Alert)] else []
  }

  /** Everything `add_entry` appends for one record, in order. */
  function EntryOps(entry: Entry, fileExists: string -> bool, insert: string -> Option<string>): seq<DocOp> {
    MetadataOps(entry)
    + PictureOps(Get(entry, "telegram_screenshot_path"), TelegramLabel, TelegramErrorPrefix, fileExists, insert)
    + PictureOps(Get(entry, "screenshot_path"), ArticleLabel, ArticleErrorPrefix, fileExists, insert)
    + [Para("", Plain)]
    + BodyOps(entry)
    + ErrorOps(entry)
    + [PageBreak]
  }

  // ---------------------------------------------------------------------------------
  // The generator

  class ReportGenerator {
    const outputFile: string
    var doc: seq<DocOp>

    constructor (outputFile: string)
      ensures this.outputFile == outputFile && doc == []
    {
      this.outputFile := outputFile;
      doc := [];
    }

    /** `_add_preserved_paragraphs`: one paragraph per piece, appended in a loop. */
    method AddPreservedParagraphs(text: string)
      modifies this
      ensures doc == old(doc) + Preserved(text)
    {
      if text == "" {
        return;
      }
      var lines := Split(text, "\n");
      var i := 0;
      while i < |lines|
        invariant 0 <= i <= |lines|
        invariant doc == old(doc) + LeftParas(lines[..i])
      {
        assert LeftParas(lines[..i + 1]) == LeftParas(lines[..i]) + [Para(lines[i], LeftAligned)];
        doc := doc + [Para(lines[i], LeftAligned)];
        i := i + 1;
      }
      assert lines[..|lines|] == lines;
    }

    /** The snippet's paragraphs, only when it is non-empty. */
    method AddSnippet(snippet: string)
      modifies this
      ensures doc == old(doc) + (if snippet != "" then Preserved(snippet) else [])
    {
      if snippet != "" {
        AddPreservedParagraphs(snippet);
      }
    }

    /** The address as a single link-styled paragraph, only when it is non-empty. */
    method AddUrlLine(urlLine: string)
      modifies this
      ensures doc == old(doc) + (if urlLine != "" then [Para(urlLine, Link)] else [])
    {
      if urlLine != "" {
        doc := doc + [Para(urlLine, Link)];
      }
    }

    method AddMetadata(entry: Entry)
      modifies this
      ensures doc == old(doc) + MetadataOps(entry)
    {
      var sourceLine := SourceLine(entry);
      var dateLine := DateLine(entry);
      var snippet := SnippetLine(entry);
      var urlLine := UrlLine(entry);
      ghost var start := doc;
      AddPreservedParagraphs(sourceLine);
      ghost var acc := Preserved(sourceLine);
      AddPreservedParagraphs(dateLine);
      AppendAssoc(start, acc, Preserved(dateLine));
      acc := acc + Preserved(dateLine);
      ghost var part := if snippet != "" then Preserved(snippet) else [];
      AddSnippet(snippet);
      AppendAssoc(start, acc, part);
      acc := acc + part;
      part := if urlLine != "" then [Para(urlLine, Link)] else [];
      AddUrlLine(urlLine);
      AppendAssoc(start, acc, part);
      acc := acc + part;
      AddPreservedParagraphs(EntrySeparator);
      AppendAssoc(start, acc, Preserved(EntrySeparator));
    }

    method AddScreenshot(path: Val, caption: string, errorPrefix: string,
                         fileExists: string -> bool, insert: string -> Option<string>)
      modifies this
      ensures doc == old(doc) + PictureOps(path, caption, errorPrefix, fileExists, insert)
    {
      if Truthy(path) && fileExists(TextOf(path)) {
        doc := doc + [Para(caption, Plain)];
        match insert(TextOf(path)) {
          case None =>
            doc := doc + [Picture(TextOf(path))];
          case Some(e) =>
            doc := doc + [Para(errorPrefix + e + "]", Plain)];
        }
      }
    }

    /** The loop over the content blocks. */
    method AddBlocks(items: seq<string>)
      modifies this
      ensures doc == old(doc) + BlockParas(items)
    {
      var i := 0;
      while i < |items|
        invariant 0 <= i <= |items|
        invariant doc == old(doc) + BlockParas(items[..i])
      {
        BlockParasStep(items, i);
        AppendAssoc(old(doc), BlockParas(items[..i]), Preserved(items[i]));
        AddPreservedParagraphs(items[i]);
        i := i + 1;
      }
      assert items[..|items|] == items;
    }

    method AddBody(entry: Entry)
      modifies this
      ensures doc == old(doc) + BodyOps(entry)
    {
      var contentBlocks := Get(entry, "text_blocks");
      if Truthy(contentBlocks) {
        AddBlocks(BlockItems(contentBlocks));
      } else {
        var snippet := Get(entry, "snippet");
        if Truthy(snippet) {
          AddPreservedParagraphs(TextOf(snippet));
        } else {
          var textContent := GetOr(entry, "full_text", VStr(""));
          AddPreservedParagraphs(TextOf(textContent));
        }
      }
    }

    /** The failure notice, only when there is a message. */
    method AddErrorNotice(errorMessage: Val)
      modifies this
      ensures doc == old(doc) + (if Truthy(errorMessage) then [Para(ErrorLine(Render(errorMessage)), Alert)] else [])
    {
      if Truthy(errorMessage) {
        doc := doc + [Para(ErrorLine(Render(errorMessage)), Alert)];
      }
    }

    /** `add_entry`: appends the record's operations to the report and nothing else. */
    method AddEntry(entry: Entry, fileExists: string -> bool, insert: string -> Option<string>)
      requires Printable(entry)
      modifies this
      ensures doc == old(doc) + EntryOps(entry, fileExists, insert)
    {
      var errorMessage := VNone;
      if Get(entry, "status") == VStr("failed") {
        errorMessage := Or(Get(entry, "error"), VStr(UnknownError));
      }
      ghost var start := doc;
      AddMetadata(entry);
      ghost var acc := MetadataOps(entry);
      ghost var part := PictureOps(Get(entry, "telegram_screenshot_path"), TelegramLabel, TelegramErrorPrefix, fileExists, insert);
      AddScreenshot(Get(entry, "telegram_screenshot_path"), TelegramLabel, TelegramErrorPrefix, fileExists, insert);
      AppendAssoc(start, acc, part);
      acc := acc + part;
      part := PictureOps(Get(entry, "screenshot_path"), ArticleLabel, ArticleErrorPrefix, fileExists, insert);
      AddScreenshot(Get(entry, "screenshot_path"), ArticleLabel, ArticleErrorPrefix, fileExists, insert);
      AppendAssoc(start, acc, part);
      acc := acc + part;
      doc := doc + [Para("", Plain)];
      AppendAssoc(start, acc, [Para("", Plain)]);
      acc := acc + [Para("", Plain)];
      AddBody(entry);
      AppendAssoc(start, acc, BodyOps(entry));
      acc := acc + BodyOps(entry);
      assert errorMessage == ErrorMessage(entry);
      AddErrorNotice(errorMessage);
      AppendAssoc(start, acc, ErrorOps(entry));
      acc := acc + ErrorOps(entry);
      doc := doc + [PageBreak];
      AppendAssoc(start, acc, [PageBreak]);
      acc := acc + [PageBreak];
    }
  }

  lemma BlockParasStep(items: seq<string>, i: nat)
    requires i < |items|
    ensures BlockParas(items[..i + 1]) == BlockParas(items[..i]) + Preserved(items[i])
  {
    assert items[..i + 1][..i] == items[..i];
  }

  // A solver aid only: it keeps the proofs that use it within the verifier's budget.
  lemma AppendAssoc(a: seq<DocOp>, b: seq<DocOp>, c: seq<DocOp>)
    ensures (a + b) + c == a + (b + c)
  {
  }

  // ---------------------------------------------------------------------------------
  // Properties of the layout

  /** The number of operations of a given kind. */
  function CountOps(ops: seq<DocOp>, kind: DocOp -> bool): nat {
    if ops == [] then 0 else (if kind(ops[0]) then 1 else 0) + CountOps(ops[1..], kind)
  }

  predicate IsBreak(op: DocOp) { op.PageBreak? }
  predicate IsAlert(op: DocOp) { op.Para? && op.style == Alert }
  predicate IsLink(op: DocOp) { op.Para? && op.style == Link }

  /** The paths of the pictures, in order. */
  function Pictures(ops: seq<DocOp>): seq<string> {
    if ops == [] then [] else (if ops[0].Picture? then [ops[0].path] else []) + Pictures(ops[1..])
  }

  lemma {:induction false} CountAppend(a: seq<DocOp>, b: seq<DocOp>, kind: DocOp -> bool)
    ensures CountOps(a + b, kind) == CountOps(a, kind) + CountOps(b, kind)
    decreases |a|
  {
    if a == [] {
      assert a + b == b;
    } else {
      assert (a + b)[1..] == a[1..] + b;
      CountAppend(a[1..], b, kind);
    }
  }

  lemma {:induction false} PicturesAppend(a: seq<DocOp>, b: seq<DocOp>)
    ensures Pictures(a + b) == Pictures(a) + Pictures(b)
    decreases |a|
  {
    if a == [] {
      assert a + b == b;
    } else {
      assert (a + b)[1..] == a[1..] + b;
      PicturesAppend(a[1..], b);
    }
  }

  /** Counting over an entry's seven sections. */
  lemma CountSections(a: seq<DocOp>, b: seq<DocOp>, c: seq<DocOp>, d: seq<DocOp>,
                      e: seq<DocOp>, f: seq<DocOp>, g: seq<DocOp>, kind: DocOp -> bool)
    ensures CountOps(a + b + c + d + e + f + g, kind)
      == CountOps(a, kind) + CountOps(b, kind) + CountOps(c, kind) + CountOps(d, kind)
         + CountOps(e, kind) + CountOps(f, kind) + CountOps(g, kind)
  {
    CountAppend(a, b, kind);
    CountAppend(a + b, c, kind);
    CountAppend(a + b + c, d, kind);
    CountAppend(a + b + c + d, e, kind);
    CountAppend(a + b + c + d + e, f, kind);
    CountAppend(a + b + c + d + e + f, g, kind);
  }

  lemma PicturesSections(a: seq<DocOp>, b: seq<DocOp>, c: seq<DocOp>, d: seq<DocOp>,
                         e: seq<DocOp>, f: seq<DocOp>, g: seq<DocOp>)
    ensures Pictures(a + b + c + d + e + f + g)
      == Pictures(a) + Pictures(b) + Pictures(c) + Pictures(d) + Pictures(e) + Pictures(f) + Pictures(g)
  {
    PicturesAppend(a, b);
    PicturesAppend(a + b, c);
    PicturesAppend(a + b + c, d);
    PicturesAppend(a + b + c + d, e);
    PicturesAppend(a + b + c + d + e, f);
    PicturesAppend(a + b + c + d + e + f, g);
  }

  lemma AllLeftAppend(a: seq<DocOp>, b: seq<DocOp>)
    requires AllLeft(a) && AllLeft(b)
    ensures AllLeft(a + b)
  {
  }

  /** Left-aligned paragraphs are no page break, no notice, no link and no picture. */
  lemma {:induction false} LeftPlain(ops: seq<DocOp>)
    requires AllLeft(ops)
    ensures CountOps(ops, IsBreak) == 0 && CountOps(ops, IsAlert) == 0 && CountOps(ops, IsLink) == 0
    ensures Pictures(ops) == []
    decreases |ops|
  {
    if ops != [] {
      LeftPlain(ops[1..]);
    }
  }

  /** The source, date and snippet paragraphs, and the separator, are left-aligned. */
  lemma MetadataHeadLeft(entry: Entry)
    ensures AllLeft(Preserved(SourceLine(entry)) + Preserved(DateLine(entry)) + SnippetOps(entry))
    ensures AllLeft(Preserved(EntrySeparator))
  {
    PreservedFacts(SourceLine(entry));
    PreservedFacts(DateLine(entry));
    PreservedFacts(SnippetLine(entry));
    PreservedFacts(EntrySeparator);
    AllLeftAppend(Preserved(SourceLine(entry)), Preserved(DateLine(entry)));
    AllLeftAppend(Preserved(SourceLine(entry)) + Preserved(DateLine(entry)), SnippetOps(entry));
  }

  /** The metadata holds no page break, notice or picture, and one link exactly when
      the address is non-empty. */
  lemma MetadataCounts(entry: Entry)
    ensures CountOps(MetadataOps(entry), IsBreak) == 0 && CountOps(MetadataOps(entry), IsAlert) == 0
    ensures CountOps(MetadataOps(entry), IsLink) == (if UrlLine(entry) != "" then 1 else 0)
    ensures Pictures(MetadataOps(entry)) == []
  {
    var h := Preserved(SourceLine(entry)) + Preserved(DateLine(entry)) + SnippetOps(entry);
    var u := UrlOps(entry);
    var e := Preserved(EntrySeparator);
    MetadataHeadLeft(entry);
    LeftPlain(h);
    LeftPlain(e);
    CountAppend(h, u, IsBreak);
    CountAppend(h + u, e, IsBreak);
    CountAppend(h, u, IsAlert);
    CountAppend(h + u, e, IsAlert);
    CountAppend(h, u, IsLink);
    CountAppend(h + u, e, IsLink);
    PicturesAppend(h, u);
    PicturesAppend(h + u, e);
  }

  lemma PairFacts(x: DocOp, y: DocOp, kind: DocOp -> bool)
    ensures CountOps([x, y], kind) == (if kind(x) then 1 else 0) + (if kind(y) then 1 else 0)
    ensures Pictures([x, y]) == (if x.Picture? then [x.path] else []) + (if y.Picture? then [y.path] else [])
  {
    assert [x, y][1..] == [y];
    assert [y][1..] == [];
    assert CountOps([y], kind) == (if kind(y) then 1 else 0) + CountOps([], kind);
    assert Pictures([y]) == (if y.Picture? then [y.path] else []) + Pictures([]);
  }

  /** A screenshot section holds no page break, notice or link, and its one picture
      exactly when the screenshot is shown. */
  lemma PictureCounts(path: Val, caption: string, errorPrefix: string,
                      fileExists: string -> bool, insert: string -> Option<string>)
    ensures var ops := PictureOps(path, caption, errorPrefix, fileExists, insert);
      && CountOps(ops, IsBreak) == 0 && CountOps(ops, IsAlert) == 0 && CountOps(ops, IsLink) == 0
      && Pictures(ops) == Shown(path, fileExists, insert)
  {
    if Truthy(path) && fileExists(TextOf(path)) {
      var first := Para(caption, Plain);
      var second := match insert(TextOf(path))
        case None => Picture(TextOf(path))
        case Some(e) => Para(errorPrefix + e + "]", Plain);
      assert PictureOps(path, caption, errorPrefix, fileExists, insert) == [first, second];
      PairFacts(first, second, IsBreak);
      PairFacts(first, second, IsAlert);
      PairFacts(first, second, IsLink);
    }
  }

  /** The body holds no page break, notice, link or picture. */
  lemma BodyCounts(entry: Entry)
    ensures CountOps(BodyOps(entry), IsBreak) == 0 && CountOps(BodyOps(entry), IsAlert) == 0
    ensures CountOps(BodyOps(entry), IsLink) == 0 && Pictures(BodyOps(entry)) == []
  {
    BodyLeft(entry);
    LeftPlain(BodyOps(entry));
  }

  lemma {:induction false} BlockParasLeft(blocks: seq<string>)
    ensures AllLeft(BlockParas(blocks))
    decreases |blocks|
  {
    if blocks != [] {
      BlockParasLeft(blocks[..|blocks| - 1]);
      PreservedFacts(blocks[|blocks| - 1]);
      AllLeftAppend(BlockParas(blocks[..|blocks| - 1]), Preserved(blocks[|blocks| - 1]));
    }
  }

  lemma BodyLeft(entry: Entry)
    ensures AllLeft(BodyOps(entry))
  {
    BlockParasLeft(BlockItems(Get(entry, "text_blocks")));
    PreservedFacts(TextOf(Get(entry, "snippet")));
    PreservedFacts(TextOf(GetOr(entry, "full_text", VStr(""))));
  }

  /** The parts of an entry, as `EntryOps` lays them out. */
  lemma EntryParts(entry: Entry, fileExists: string -> bool, insert: string -> Option<string>)
    ensures EntryOps(entry, fileExists, insert)
      == MetadataOps(entry)
         + PictureOps(Get(entry, "telegram_screenshot_path"), TelegramLabel, TelegramErrorPrefix, fileExists, insert)
         + PictureOps(Get(entry, "screenshot_path"), ArticleLabel, ArticleErrorPrefix, fileExists, insert)
         + [Para("", Plain)] + BodyOps(entry) + ErrorOps(entry) + [PageBreak]
  {
  }

  lemma SectionBreaks(m: seq<DocOp>, tg: seq<DocOp>, shot: seq<DocOp>, body: seq<DocOp>, err: seq<DocOp>)
    requires CountOps(m, IsBreak) == 0 && CountOps(tg, IsBreak) == 0 && CountOps(shot, IsBreak) == 0
    requires CountOps(body, IsBreak) == 0 && CountOps(err, IsBreak) == 0
    ensures CountOps(m + tg + shot + [Para("", Plain)] + body + err + [PageBreak], IsBreak) == 1
  {
    CountSections(m, tg, shot, [Para("", Plain)], body, err, [PageBreak], IsBreak);
  }

  lemma SectionAlerts(m: seq<DocOp>, tg: seq<DocOp>, shot: seq<DocOp>, body: seq<DocOp>, err: seq<DocOp>)
    requires CountOps(m, IsAlert) == 0 && CountOps(tg, IsAlert) == 0 && CountOps(shot, IsAlert) == 0
    requires CountOps(body, IsAlert) == 0
    ensures CountOps(m + tg + shot + [Para("", Plain)] + body + err + [PageBreak], IsAlert) == CountOps(err, IsAlert)
  {
    CountSections(m, tg, shot, [Para("", Plain)], body, err, [PageBreak], IsAlert);
  }

  lemma SectionLinks(m: seq<DocOp>, tg: seq<DocOp>, shot: seq<DocOp>, body: seq<DocOp>, err: seq<DocOp>)
    requires CountOps(tg, IsLink) == 0 && CountOps(shot, IsLink) == 0
    requires CountOps(body, IsLink) == 0 && CountOps(err, IsLink) == 0
    ensures CountOps(m + tg + shot + [Para("", Plain)] + body + err + [PageBreak], IsLink) == CountOps(m, IsLink)
  {
    CountSections(m, tg, shot, [Para("", Plain)], body, err, [PageBreak], IsLink);
  }

  lemma ErrorCounts(entry: Entry)
    ensures CountOps(ErrorOps(entry), IsBreak) == 0 && CountOps(ErrorOps(entry), IsLink) == 0
    ensures CountOps(ErrorOps(entry), IsAlert) == (if Get(entry, "status") == VStr("failed") then 1 else 0)
    ensures Pictures(ErrorOps(entry)) == []
  {
  }

  /** How many page breaks, notices and links an entry holds. */
  lemma EntryCounts(entry: Entry, fileExists: string -> bool, insert: string -> Option<string>)
    ensures var ops := EntryOps(entry, fileExists, insert);
      && CountOps(ops, IsBreak) == 1
      && CountOps(ops, IsAlert) == (if Get(entry, "status") == VStr("failed") then 1 else 0)
      && CountOps(ops, IsLink) == (if UrlLine(entry) != "" then 1 else 0)
  {
    var tgPath := Get(entry, "telegram_screenshot_path");
    var shotPath := Get(entry, "screenshot_path");
    var tg := PictureOps(tgPath, TelegramLabel, TelegramErrorPrefix, fileExists, insert);
    var shot := PictureOps(shotPath, ArticleLabel, ArticleErrorPrefix, fileExists, insert);
    EntryParts(entry, fileExists, insert);
    MetadataCounts(entry);
    PictureCounts(tgPath, TelegramLabel, TelegramErrorPrefix, fileExists, insert);
    PictureCounts(shotPath, ArticleLabel, ArticleErrorPrefix, fileExists, insert);
    BodyCounts(entry);
    ErrorCounts(entry);
    SectionBreaks(MetadataOps(entry), tg, shot, BodyOps(entry), ErrorOps(entry));
    SectionAlerts(MetadataOps(entry), tg, shot, BodyOps(entry), ErrorOps(entry));
    SectionLinks(MetadataOps(entry), tg, shot, BodyOps(entry), ErrorOps(entry));
  }

  /** Every entry ends with its page break, and it is the only one. */
  lemma EntryEndsWithPageBreak(entry: Entry, fileExists: string -> bool, insert: string -> Option<string>)
    ensures var ops := EntryOps(entry, fileExists, insert); ops[|ops| - 1] == PageBreak && CountOps(ops, IsBreak) == 1
  {
    EntryCounts(entry, fileExists, insert);
  }

  lemma NoticeBeforeBreak(p: seq<DocOp>, err: seq<DocOp>)
    requires |err| == 1
    ensures var ops := p + err + [PageBreak]; ops[|ops| - 2] == err[0]
  {
  }

  /** A failure notice appears exactly when the record failed, once, just before the
      page break, carrying the record's error or the default message. */
  lemma ErrorIffFailed(entry: Entry, fileExists: string -> bool, insert: string -> Option<string>)
    ensures var ops := EntryOps(entry, fileExists, insert);
      var failed := Get(entry, "status") == VStr("failed");
      && CountOps(ops, IsAlert) == (if failed then 1 else 0)
      && (failed ==> var error := Get(entry, "error");
            ops[|ops| - 2] == Para(ErrorLine(if Truthy(error) then Render(error) else UnknownError), Alert))
  {
    EntryCounts(entry, fileExists, insert);
    if Get(entry, "status") == VStr("failed") {
      var tg := PictureOps(Get(entry, "telegram_screenshot_path"), TelegramLabel, TelegramErrorPrefix, fileExists, insert);
      var shot := PictureOps(Get(entry, "screenshot_path"), ArticleLabel, ArticleErrorPrefix, fileExists, insert);
      EntryParts(entry, fileExists, insert);
      NoticeBeforeBreak(MetadataOps(entry) + tg + shot + [Para("", Plain)] + BodyOps(entry), ErrorOps(entry));
    }
  }

  /** The address line appears once, styled as a link, exactly when the record has a
      non-empty address. */
  lemma LinkIffUrl(entry: Entry, fileExists: string -> bool, insert: string -> Option<string>)
    ensures CountOps(EntryOps(entry, fileExists, insert), IsLink) == (if UrlLine(entry) != "" then 1 else 0)
  {
    EntryCounts(entry, fileExists, insert);
  }

  /** A screenshot shows in the report when its path is set, the file exists and
      inserting it does not raise. */
  function Shown(path: Val, fileExists: string -> bool, insert: string -> Option<string>): seq<string> {
    if Truthy(path) && fileExists(TextOf(path)) && insert(TextOf(path)).None? then [TextOf(path)] else []
  }

  lemma SectionPictures(m: seq<DocOp>, tg: seq<DocOp>, shot: seq<DocOp>, body: seq<DocOp>, err: seq<DocOp>)
    requires Pictures(m) == [] && Pictures(body) == [] && Pictures(err) == []
    ensures Pictures(m + tg + shot + [Para("", Plain)] + body + err + [PageBreak]) == Pictures(tg) + Pictures(shot)
  {
    PicturesSections(m, tg, shot, [Para("", Plain)], body, err, [PageBreak]);
  }

  /** The pictures of an entry are the Telegram capture, then the article screenshot,
      each only when it is shown. */
  lemma PicturesInOrder(entry: Entry, fileExists: string -> bool, insert: string -> Option<string>)
    ensures Pictures(EntryOps(entry, fileExists, insert))
      == Shown(Get(entry, "telegram_screenshot_path"), fileExists, insert) + Shown(Get(entry, "screenshot_path"), fileExists, insert)
  {
    var tgPath := Get(entry, "telegram_screenshot_path");
    var shotPath := Get(entry, "screenshot_path");
    var tg := PictureOps(tgPath, TelegramLabel, TelegramErrorPrefix, fileExists, insert);
    var shot := PictureOps(shotPath, ArticleLabel, ArticleErrorPrefix, fileExists, insert);
    EntryParts(entry, fileExists, insert);
    MetadataCounts(entry);
    PictureCounts(tgPath, TelegramLabel, TelegramErrorPrefix, fileExists, insert);
    PictureCounts(shotPath, ArticleLabel, ArticleErrorPrefix, fileExists, insert);
    BodyCounts(entry);
    ErrorCounts(entry);
    SectionPictures(MetadataOps(entry), tg, shot, BodyOps(entry), ErrorOps(entry));
  }

  lemma PrefixKept(x: seq<DocOp>, y: seq<DocOp>, k: nat)
    requires k <= |x|
    ensures (x + y)[..k] == x[..k]
  {
  }

  /** The ops of an entry open with those of its metadata. */
  lemma EntryStartsWithMetadata(entry: Entry, fileExists: string -> bool, insert: string -> Option<string>)
    ensures |MetadataOps(entry)| <= |EntryOps(entry, fileExists, insert)|
    ensures EntryOps(entry, fileExists, insert)[..|MetadataOps(entry)|] == MetadataOps(entry)
  {
    var m := MetadataOps(entry);
    var k := |m|;
    var tg := PictureOps(Get(entry, "telegram_screenshot_path"), TelegramLabel, TelegramErrorPrefix, fileExists, insert);
    var shot := PictureOps(Get(entry, "screenshot_path"), ArticleLabel, ArticleErrorPrefix, fileExists, insert);
    var blank: seq<DocOp> := [Para("", Plain)];
    EntryParts(entry, fileExists, insert);
    PrefixKept(m, tg, k);
    PrefixKept(m + tg, shot, k);
    PrefixKept(m + tg + shot, blank, k);
    PrefixKept(m + tg + shot + blank, BodyOps(entry), k);
    PrefixKept(m + tg + shot + blank + BodyOps(entry), ErrorOps(entry), k);
    PrefixKept(m + tg + shot + blank + BodyOps(entry) + ErrorOps(entry), [PageBreak], k);
  }

  /** The metadata opens with the source paragraphs, then the date paragraphs. */
  lemma MetadataStartsWithSourceDate(entry: Entry)
    ensures var n := |Preserved(SourceLine(entry))| + |Preserved(DateLine(entry))|;
      n <= |MetadataOps(entry)| && MetadataOps(entry)[..n] == Preserved(SourceLine(entry)) + Preserved(DateLine(entry))
  {
    var p := Preserved(SourceLine(entry)) + Preserved(DateLine(entry));
    PrefixKept(p, SnippetOps(entry), |p|);
    PrefixKept(p + SnippetOps(entry), UrlOps(entry), |p|);
    PrefixKept(p + SnippetOps(entry) + UrlOps(entry), Preserved(EntrySeparator), |p|);
  }

  lemma LeadsWith(ops: seq<DocOp>, a: seq<DocOp>, b: seq<DocOp>)
    requires |a| + |b| <= |ops| && ops[..|a| + |b|] == a + b
    ensures ops[..|a|] == a && ops[|a|..|a| + |b|] == b
  {
    assert ops[..|a|] == (a + b)[..|a|];
    assert ops[|a|..|a| + |b|] == (a + b)[|a|..|a| + |b|];
  }

  /** An entry opens with the source text, paragraph by paragraph, then the date text;
      the defaults stand in for a missing or empty source or date. */
  lemma MetadataLeads(entry: Entry, fileExists: string -> bool, insert: string -> Option<string>)
    ensures var ops := EntryOps(entry, fileExists, insert);
      var n := |Preserved(SourceLine(entry))|;
      var m := |Preserved(DateLine(entry))|;
      && n + m <= |ops|
      && AllLeft(ops[..n + m])
      && Join(Texts(ops[..n]), "\n") == SourceLine(entry)
      && Join(Texts(ops[n..n + m]), "\n") == DateLine(entry)
  {
    var ops := EntryOps(entry, fileExists, insert);
    var a := Preserved(SourceLine(entry));
    var b := Preserved(DateLine(entry));
    MetadataStartsWithSourceDate(entry);
    EntryStartsWithMetadata(entry, fileExists, insert);
    var m := MetadataOps(entry);
    assert ops[..|a| + |b|] == ops[..|m|][..|a| + |b|] == m[..|a| + |b|];
    LeadsWith(ops, a, b);
    PreservedFacts(SourceLine(entry));
    PreservedFacts(DateLine(entry));
    AllLeftAppend(a, b);
  }

  /** The source and date lines fall back to their defaults exactly when the record's
      value is missing or empty. */
  lemma SourceDateDefaults(entry: Entry)
    ensures SourceLine(entry) == if Truthy(Get(entry, "source")) then TextOf(Get(entry, "source")) else "Unknown Source"
    ensures DateLine(entry) == if Truthy(Get(entry, "date")) then TextOf(Get(entry, "date")) else "Unknown Date"
  {
  }

  lemma {:induction false} JoinAppend(a: seq<string>, b: seq<string>, sep: string)
    requires a != [] && b != []
    ensures Join(a + b, sep) == Join(a, sep) + sep + Join(b, sep)
    decreases |a|
  {
    if |a| == 1 {
      assert (a + b)[1..] == b;
    } else {
      assert (a + b)[1..] == a[1..] + b;
      JoinAppend(a[1..], b, sep);
    }
  }

  /** One more block: its pieces extend the joined text by the block exactly when the
      block is non-empty. */
  lemma BlocksStep(p: seq<string>, q: seq<string>, ne: seq<string>, b: string)
    requires Join(p, "\n") == Join(ne, "\n") && (p == [] <==> ne == [])
    requires Join(q, "\n") == b && (q == [] <==> b == "")
    ensures var nb := ne + (if b != "" then [b] else []);
      Join(p + q, "\n") == Join(nb, "\n") && (p + q == [] <==> nb == [])
  {
    if b == "" {
      assert p + q == p && ne + [] == ne;
    } else if ne == [] {
      assert p + q == q && ne + [b] == [b];
    } else {
      JoinAppend(p, q, "\n");
      JoinAppend(ne, [b], "\n");
    }
  }

  /** The paragraphs of the content blocks spell out the non-empty blocks, joined by line
      feeds; empty blocks add nothing. */
  lemma {:induction false} BlocksText(blocks: seq<string>)
    ensures Join(Texts(BlockParas(blocks)), "\n") == Join(NonEmpty(blocks), "\n")
    ensures BlockParas(blocks) == [] <==> NonEmpty(blocks) == []
    decreases |blocks|
  {
    if blocks != [] {
      var init := blocks[..|blocks| - 1];
      var b := blocks[|blocks| - 1];
      assert blocks == init + [b];
      BlocksText(init);
      PreservedFacts(b);
      NonEmptyAppend(init, [b]);
      assert NonEmpty([b]) == (if b != "" then [b] else []);
      TextsAppend(BlockParas(init), Preserved(b));
      BlocksStep(Texts(BlockParas(init)), Texts(Preserved(b)), NonEmpty(init), b);
    }
  }

  /** The article text, as the lines of the report's body spell it. */
  function BodyText(entry: Entry): string {
    var blocks := Get(entry, "text_blocks");
    var snippet := Get(entry, "snippet");
    if Truthy(blocks) then Join(NonEmpty(BlockItems(blocks)), "\n")
    else if Truthy(snippet) then TextOf(snippet)
    else TextOf(GetOr(entry, "full_text", VStr("")))
  }

  /** The body is left-aligned paragraphs spelling out the content blocks when there are
      any, else the snippet when non-empty, else the full text. */
  lemma BodyFacts(entry: Entry)
    ensures AllLeft(BodyOps(entry))
    ensures Join(Texts(BodyOps(entry)), "\n") == BodyText(entry)
  {
    BodyLeft(entry);
    BlocksText(BlockItems(Get(entry, "text_blocks")));
    PreservedFacts(TextOf(Get(entry, "snippet")));
    PreservedFacts(TextOf(GetOr(entry, "full_text", VStr(""))));
  }
}
