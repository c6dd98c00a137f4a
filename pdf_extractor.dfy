/**
 * The PDF extractor. Each page contributes, in this order, its text blocks (classified
 * into headings and paragraphs by the font size and boldness of their spans), its
 * images, its URI links and its detected tables. What PyMuPDF reports about the file
 * (the text dictionary, the image bytes, the link annotations, the table grids and the
 * document properties) is an input value here.
 */
module PdfExtractor {
  import opened Wrappers
  import opened Strings
  import opened Seqs
  import opened Paths
  import opened DocumentModel
  import opened TextUtils
  import opened ImageUtils
  import opened BaseExtractor
  import opened Tables
  import TextExtractor

  const SupportedExtensions: seq<string> := [".pdf"]

  /** PyMuPDF's link kind for a link to a URI (`fitz.LINK_URI`). */
  const LinkUri := 2

  // ---------------------------------------------------------------- input

  /** A run of text in one font, from the text dictionary; an absent key is None. */
  datatype Span = Span(text: Option<string>, size: Option<real>, flags: Option<int>)

  /** A block of the text dictionary: its type (0 for text) and its lines of spans. */
  datatype RawBlock = RawBlock(kind: Option<int>, lines: seq<seq<Span>>)

  /** An extracted image: its bytes, file extension and dimensions when reported. */
  datatype RawImage = RawImage(data: seq<byte>, ext: Option<string>, width: Option<int>, height: Option<int>)

  /** A link annotation: its kind, its URI, and the page text inside its rectangle. */
  datatype RawLink = RawLink(kind: Option<int>, uri: Option<string>, clipText: string)

  /** A detected table's rows of cells; an empty cell is None. */
  type Grid = seq<seq<Option<string>>>

  /** One page: text blocks, images (None when the image could not be extracted), links and tables. */
  datatype RawPage = RawPage(blocks: seq<RawBlock>, images: seq<Option<RawImage>>, links: seq<RawLink>, tables: seq<Grid>)

  /** The document properties; an absent key is None. */
  datatype PdfInfo = PdfInfo(title: Option<string>, author: Option<string>, subject: Option<string>,
                             keywords: Option<string>, creationDate: Option<string>, modDate: Option<string>)

  datatype RawPdf = RawPdf(info: PdfInfo, pages: seq<RawPage>)

  // ---------------------------------------------------------------- spans

  /** `span.get("text", "")`. */
  function SpanText(s: Span): string {
    if s.text.Some? then s.text.value else ""
  }

  /** `span.get("size", 12)`. */
  function SpanSize(s: Span): real {
    if s.size.Some? then s.size.value else 12.0
  }

  /** `span.get("flags", 0)`. */
  function SpanFlags(s: Span): int {
    if s.flags.Some? then s.flags.value else 0
  }

  /** `flags & 2 ** 4`: bit 4 of the flags in two's complement (the bold bit). */
  predicate IsBoldFlag(flags: int) {
    (flags / 16) % 2 == 1
  }

  /** The bold bit is set exactly when the flags modulo 32 are at least 16. */
  lemma BoldFlagModulo(flags: int)
    ensures IsBoldFlag(flags) <==> flags % 32 >= 16
  {
    var q := flags / 32;
    var r := flags % 32;
    assert flags == 32 * q + r;
    assert flags / 16 == 2 * q + r / 16;
  }

  /** The text of a line: its span texts in order. */
  function LineText(spans: seq<Span>): string
    decreases |spans|
  {
    if |spans| == 0 then "" else LineText(spans[..|spans| - 1]) + SpanText(spans[|spans| - 1])
  }

  /** The text of a block: each line's text followed by a newline. */
  function BlockText(lines: seq<seq<Span>>): string {
    Terminated(Map(lines, LineText), "\n")
  }

  /** The running largest size, starting from `m` and taking a span's size only when strictly larger. */
  function MaxSizeIn(m: real, spans: seq<Span>): real
    decreases |spans|
  {
    if |spans| == 0 then m
    else
      var p := MaxSizeIn(m, spans[..|spans| - 1]);
      if SpanSize(spans[|spans| - 1]) > p then SpanSize(spans[|spans| - 1]) else p
  }

  /** The largest span size of a block, starting from 0. */
  function BlockMaxSize(lines: seq<seq<Span>>): real
    decreases |lines|
  {
    if |lines| == 0 then 0.0 else MaxSizeIn(BlockMaxSize(lines[..|lines| - 1]), lines[|lines| - 1])
  }

  /** The running bold flag, starting from `b`. */
  function BoldIn(b: bool, spans: seq<Span>): bool
    decreases |spans|
  {
    if |spans| == 0 then b else BoldIn(b, spans[..|spans| - 1]) || IsBoldFlag(SpanFlags(spans[|spans| - 1]))
  }

  /** Whether some span of a block has the bold bit. */
  function BlockBold(lines: seq<seq<Span>>): bool
    decreases |lines|
  {
    if |lines| == 0 then false else BoldIn(BlockBold(lines[..|lines| - 1]), lines[|lines| - 1])
  }

  /** Some span of the block has exactly this size. */
  predicate SizeOccurs(lines: seq<seq<Span>>, m: real) {
    exists i, j :: 0 <= i < |lines| && 0 <= j < |lines[i]| && SpanSize(lines[i][j]) == m
  }

  /** Some span of the block has the bold bit. */
  predicate SomeBoldSpan(lines: seq<seq<Span>>) {
    exists i, j :: 0 <= i < |lines| && 0 <= j < |lines[i]| && IsBoldFlag(SpanFlags(lines[i][j]))
  }

  lemma {:induction false} MaxSizeInBounds(m: real, spans: seq<Span>)
    ensures MaxSizeIn(m, spans) >= m
    ensures forall j :: 0 <= j < |spans| ==> SpanSize(spans[j]) <= MaxSizeIn(m, spans)
    ensures MaxSizeIn(m, spans) == m || exists j :: 0 <= j < |spans| && SpanSize(spans[j]) == MaxSizeIn(m, spans)
    decreases |spans|
  {
    if |spans| > 0 {
      var n := |spans| - 1;
      MaxSizeInBounds(m, spans[..n]);
      assert forall j :: 0 <= j < n ==> spans[..n][j] == spans[j];
    }
  }

  /**
   * The font size of a block is the largest size among its spans (a span without a
   * size counting as 12): no span is larger, and it is some span's size unless the
   * block has no span with a positive size, in which case it is 0.
   */
  lemma {:induction false} BlockMaxSizeIsMax(lines: seq<seq<Span>>)
    ensures BlockMaxSize(lines) >= 0.0
    ensures forall i, j :: 0 <= i < |lines| && 0 <= j < |lines[i]| ==> SpanSize(lines[i][j]) <= BlockMaxSize(lines)
    ensures BlockMaxSize(lines) == 0.0 || SizeOccurs(lines, BlockMaxSize(lines))
    decreases |lines|
  {
    if |lines| > 0 {
      var n := |lines| - 1;
      var init := lines[..n];
      BlockMaxSizeIsMax(init);
      MaxSizeInBounds(BlockMaxSize(init), lines[n]);
      assert forall i :: 0 <= i < n ==> init[i] == lines[i];
      var m := BlockMaxSize(lines);
      if m != 0.0 {
        if m == BlockMaxSize(init) {
          var i, j :| 0 <= i < n && 0 <= j < |init[i]| && SpanSize(init[i][j]) == m;
          assert SpanSize(lines[i][j]) == m;
        } else {
          var j :| 0 <= j < |lines[n]| && SpanSize(lines[n][j]) == m;
        }
      }
    }
  }

  lemma {:induction false} BoldInIff(b: bool, spans: seq<Span>)
    ensures BoldIn(b, spans) <==> b || exists j :: 0 <= j < |spans| && IsBoldFlag(SpanFlags(spans[j]))
    decreases |spans|
  {
    if |spans| > 0 {
      var n := |spans| - 1;
      BoldInIff(b, spans[..n]);
      assert forall j :: 0 <= j < n ==> spans[..n][j] == spans[j];
    }
  }

  /** A block is bold exactly when one of its spans has the bold bit. */
  lemma {:induction false} BlockBoldIff(lines: seq<seq<Span>>)
    ensures BlockBold(lines) <==> SomeBoldSpan(lines)
    decreases |lines|
  {
    if |lines| > 0 {
      var n := |lines| - 1;
      var init := lines[..n];
      BlockBoldIff(init);
      BoldInIff(BlockBold(init), lines[n]);
      assert forall i :: 0 <= i < n ==> init[i] == lines[i];
      if SomeBoldSpan(lines) {
        var i, j :| 0 <= i < |lines| && 0 <= j < |lines[i]| && IsBoldFlag(SpanFlags(lines[i][j]));
        if i < n {
          assert IsBoldFlag(SpanFlags(init[i][j]));
        }
      }
    }
  }

  /** When no span text holds a newline, splitting the block text at newlines gives back the line texts. */
  lemma BlockTextLines(lines: seq<seq<Span>>)
    requires forall i, j :: 0 <= i < |lines| && 0 <= j < |lines[i]| ==> '\n' !in SpanText(lines[i][j])
    ensures SplitOn(BlockText(lines), '\n') == Map(lines, LineText) + [""]
  {
    TerminatedJoin(Map(lines, LineText), "\n");
    var ps := Map(lines, LineText) + [""];
    forall k | 0 <= k < |ps| ensures '\n' !in ps[k] {
      if k < |lines| {
        LineTextNoNewline(lines[k]);
      }
    }
    SplitOnJoin(ps, '\n');
  }

  lemma {:induction false} LineTextNoNewline(spans: seq<Span>)
    requires forall j :: 0 <= j < |spans| ==> '\n' !in SpanText(spans[j])
    ensures '\n' !in LineText(spans)
    decreases |spans|
  {
    if |spans| > 0 {
      var n := |spans| - 1;
      assert forall j :: 0 <= j < n ==> spans[..n][j] == spans[j];
      LineTextNoNewline(spans[..n]);
    }
  }

  /**
   * The span loops of `_extract_text_blocks`: the block text, the largest font size
   * and the bold flag, gathered in one pass over the lines and their spans.
   */
  method ScanBlock(lines: seq<seq<Span>>) returns (text: string, maxSize: real, bold: bool)
    ensures text == BlockText(lines) && maxSize == BlockMaxSize(lines) && bold == BlockBold(lines)
  {
    text, maxSize, bold := "", 0.0, false;
    for i := 0 to |lines|
      invariant text == Terminated(Map(lines[..i], LineText), "\n")
      invariant maxSize == BlockMaxSize(lines[..i]) && bold == BlockBold(lines[..i])
    {
      BlockSnoc(lines, i);
      var lineText;
      lineText, maxSize, bold := ScanLine(lines[i], maxSize, bold);
      TerminatedSnoc(Map(lines[..i], LineText), lineText, "\n");
      text := text + lineText + "\n";
    }
    assert lines[..|lines|] == lines;
  }

  /** The step of the line loop. */
  lemma BlockSnoc(lines: seq<seq<Span>>, i: nat)
    requires i < |lines|
    ensures Map(lines[..i + 1], LineText) == Map(lines[..i], LineText) + [LineText(lines[i])]
    ensures BlockMaxSize(lines[..i + 1]) == MaxSizeIn(BlockMaxSize(lines[..i]), lines[i])
    ensures BlockBold(lines[..i + 1]) == BoldIn(BlockBold(lines[..i]), lines[i])
  {
    var p := lines[..i + 1];
    assert p[..|p| - 1] == lines[..i] && p[|p| - 1] == lines[i];
    MapSnoc([], lines, i, LineText);
    assert [] + Map(p, LineText) == Map(p, LineText);
    assert [] + Map(lines[..i], LineText) == Map(lines[..i], LineText);
  }

  /** The span loop of one line: its text, and the running font size and bold flag carried on from `m0` and `b0`. */
  method ScanLine(line: seq<Span>, m0: real, b0: bool) returns (lineText: string, maxSize: real, bold: bool)
    ensures lineText == LineText(line) && maxSize == MaxSizeIn(m0, line) && bold == BoldIn(b0, line)
  {
    lineText, maxSize, bold := "", m0, b0;
    for j := 0 to |line|
      invariant lineText == LineText(line[..j])
      invariant maxSize == MaxSizeIn(m0, line[..j]) && bold == BoldIn(b0, line[..j])
    {
      assert line[..j + 1][..j] == line[..j];
      var span := line[j];
      lineText := lineText + SpanText(span);
      var size := SpanSize(span);
      if size > maxSize {
        maxSize := size;
      }
      if IsBoldFlag(SpanFlags(span)) {
        bold := true;
      }
    }
    assert line[..|line|] == line;
  }

  // ---------------------------------------------------------------- text blocks

  /** `_determine_heading_level`: 24, 20, 16, 14 and 12 points open levels 1 to 5; anything smaller is 6. */
  function HeadingLevel(size: real): (level: int)
    ensures 1 <= level <= 6
  {
    if size >= 24.0 then 1
    else if size >= 20.0 then 2
    else if size >= 16.0 then 3
    else if size >= 14.0 then 4
    else if size >= 12.0 then 5
    else 6
  }

  /** The smallest size that reaches a level (for levels 1 to 5). */
  function LevelThreshold(level: int): real
    requires 1 <= level <= 5
  {
    [24.0, 20.0, 16.0, 14.0, 12.0][level - 1]
  }

  /** A larger font never gives a deeper heading level. */
  lemma HeadingLevelMonotone(a: real, b: real)
    requires a <= b
    ensures HeadingLevel(b) <= HeadingLevel(a)
  {
  }

  /** A size reaches level L or a shallower one exactly when it is at least L's threshold. */
  lemma HeadingLevelThresholds(size: real, level: int)
    requires 1 <= level <= 5
    ensures HeadingLevel(size) <= level <==> size >= LevelThreshold(level)
  {
  }

  function PageHint(pageNo: nat): string {
    "page_" + NatToString(pageNo)
  }

  /** The font test that, with `is_heading`, makes a heading: at least 14 points or bold. */
  predicate HeadingFont(lines: seq<seq<Span>>) {
    BlockMaxSize(lines) >= 14.0 || BlockBold(lines)
  }

  /** One block of the text dictionary on page `pageNo`: None for a non-text block or one that cleans to "". */
  function TextBlockOf(raw: RawBlock, pageNo: nat): Option<Block> {
    if raw.kind != Some(0) then None
    else ClassifyText(CleanTextSpec(BlockText(raw.lines), true), BlockMaxSize(raw.lines), BlockBold(raw.lines), pageNo)
  }

  /** The block made of a cleaned text, the block's largest font size and its bold flag. */
  function ClassifyText(t: string, size: real, bold: bool, pageNo: nat): Option<Block> {
    if t == "" then None
    else
      var dir := TextExtractor.DirectionOf(t);
      if IsHeading(t, 3, 200) && (size >= 14.0 || bold) then
        Some(HeadingBlock(dir, Some(PageHint(pageNo)), HeadingLevel(size), t, []))
      else
        Some(ParagraphBlock(dir, Some(PageHint(pageNo)), t, [], bold, false))
  }

  /**
   * A text block is kept exactly when it is of type 0 and its cleaned text is not empty;
   * it is a heading exactly when that text passes the heading test and the block is at
   * least 14 points or bold, and a paragraph otherwise, carrying the block's bold flag.
   */
  lemma ClassifyTextBlock(raw: RawBlock, pageNo: nat)
    ensures TextBlockOf(raw, pageNo).None? <==>
      raw.kind != Some(0) || CleanTextSpec(BlockText(raw.lines), true) == ""
    ensures TextBlockOf(raw, pageNo).Some? ==>
      var b := TextBlockOf(raw, pageNo).value;
      var t := CleanTextSpec(BlockText(raw.lines), true);
      && b.text == t && b.positionHint == Some(PageHint(pageNo))
      && (b.HeadingBlock? <==> IsHeading(t, 3, 200) && HeadingFont(raw.lines))
      && (b.ParagraphBlock? <==> !(IsHeading(t, 3, 200) && HeadingFont(raw.lines)))
      && (b.HeadingBlock? ==> b.level == HeadingLevel(BlockMaxSize(raw.lines)))
      && (b.ParagraphBlock? ==> (b.isBold <==> SomeBoldSpan(raw.lines)))
  {
    BlockBoldIff(raw.lines);
  }

  /** A heading's text is one stripped line of 3 to 200 characters, and its level is 1 to 6. */
  lemma HeadingShape(raw: RawBlock, pageNo: nat)
    requires TextBlockOf(raw, pageNo).Some? && TextBlockOf(raw, pageNo).value.HeadingBlock?
    ensures var b := TextBlockOf(raw, pageNo).value;
      && '\n' !in b.text && 3 <= |b.text| <= 200 && Strip(b.text) == b.text && 1 <= b.level <= 6
  {
    CleanTextPreservingNewlinesShape(BlockText(raw.lines));
    StripOfStripped(CleanTextSpec(BlockText(raw.lines), true));
  }

  /** One iteration of the block loop of `_extract_text_blocks`. */
  method TextBlockAt(raw: RawBlock, pageNo: nat) returns (b: Option<Block>)
    ensures b == TextBlockOf(raw, pageNo)
  {
    if raw.kind != Some(0) {
      return None;
    }
    var text, maxSize, bold := ScanBlock(raw.lines);
    var t := CleanText(text, true);
    if t == "" {
      return None;
    }
    var d := DetectTextDirection(t);
    var dir := if d == "rtl" then RTL else LTR;
    if IsHeading(t, 3, 200) && (maxSize >= 14.0 || bold) {
      b := Some(HeadingBlock(dir, Some(PageHint(pageNo)), HeadingLevel(maxSize), t, []));
    } else {
      b := Some(ParagraphBlock(dir, Some(PageHint(pageNo)), t, [], bold, false));
    }
  }

  function TextStep(pageNo: nat): (RawBlock, nat) -> Option<Block> {
    (raw: RawBlock, i: nat) => TextBlockOf(raw, pageNo)
  }

  /** `_extract_text_blocks`: the kept blocks of the text dictionary, in order. */
  method ExtractTextBlocks(raws: seq<RawBlock>, pageNo: nat) returns (blocks: seq<Block>)
    ensures blocks == Collect(raws, TextStep(pageNo))
  {
    blocks := [];
    for i := 0 to |raws|
      invariant blocks == Collect(raws[..i], TextStep(pageNo))
    {
      CollectSnoc(raws, i, TextStep(pageNo));
      var b := TextBlockAt(raws[i], pageNo);
      if b.Some? {
        blocks := blocks + [b.value];
      }
    }
    assert raws[..|raws|] == raws;
  }

  // ---------------------------------------------------------------- images

  /** The image at index `idx` of page `pageNo`, identified by `id`; None when nothing was extracted. */
  function ImageBlockOf(img: Option<RawImage>, pageNo: nat, idx: nat, id: string): (r: Option<Block>)
    ensures r.Some? <==> img.Some?
    ensures r.Some? ==> (r.value.ImageBlock? && r.value.imageId == id
      && r.value.positionHint == Some(PageHint(pageNo) + "_img_" + NatToString(idx + 1))
      && r.value.imageFormat == Some(img.value.ext.GetOr("png"))
      && r.value.imageData == Some(ImageToBase64(img.value.data, img.value.ext.GetOr("png")))
      && r.value.width == img.value.width && r.value.height == img.value.height)
  {
    if img.None? then None
    else
      var fmt := if img.value.ext.Some? then img.value.ext.value else "png";
      Some(ImageBlock(AUTO, Some(PageHint(pageNo) + "_img_" + NatToString(idx + 1)), id, None, None,
                      Some(ImageToBase64(img.value.data, fmt)), None, Some(fmt), img.value.width, img.value.height))
  }

  function ImageStep(pageNo: nat, ids: (nat, nat) -> string): (Option<RawImage>, nat) -> Option<Block> {
    (img: Option<RawImage>, i: nat) => ImageBlockOf(img, pageNo, i, ids(pageNo, i))
  }

  /** `_extract_images`: the extracted images in order, numbered by their index among all the page's images. */
  method ExtractImages(imgs: seq<Option<RawImage>>, pageNo: nat, ids: (nat, nat) -> string) returns (blocks: seq<Block>)
    ensures blocks == Collect(imgs, ImageStep(pageNo, ids))
  {
    blocks := [];
    for i := 0 to |imgs|
      invariant blocks == Collect(imgs[..i], ImageStep(pageNo, ids))
    {
      CollectSnoc(imgs, i, ImageStep(pageNo, ids));
      var img := imgs[i];
      assert ImageStep(pageNo, ids)(img, i) == ImageBlockOf(img, pageNo, i, ids(pageNo, i));
      if img.None? {
        continue;
      }
      var fmt := if img.value.ext.Some? then img.value.ext.value else "png";
      var id := ids(pageNo, i);
      var data := ImageToBase64(img.value.data, fmt);
      blocks := blocks + [ImageBlock(AUTO, Some(PageHint(pageNo) + "_img_" + NatToString(i + 1)), id, None, None,
                                     Some(data), None, Some(fmt), img.value.width, img.value.height)];
    }
    assert imgs[..|imgs|] == imgs;
  }

  // ---------------------------------------------------------------- links

  /** A link annotation of page `pageNo`: kept only for a URI link with a non-empty URI. */
  function LinkBlockOf(l: RawLink, pageNo: nat): (r: Option<Block>)
    ensures r.Some? <==> l.kind == Some(LinkUri) && Truthy(l.uri)
    ensures r.Some? ==> (r.value.LinkBlock? && r.value.url == l.uri.value
      && r.value.positionHint == Some(PageHint(pageNo))
      && r.value.text == (if Strip(l.clipText) != "" then Strip(l.clipText) else l.uri.value))
  {
    if l.kind == Some(LinkUri) then
      var uri := if l.uri.Some? then l.uri.value else "";
      if uri != "" then
        var clip := Strip(l.clipText);
        Some(LinkBlock(AUTO, Some(PageHint(pageNo)), if clip != "" then clip else uri, uri))
      else None
    else None
  }

  /** A kept link's text is never empty: it falls back to the URI. */
  lemma LinkTextNonEmpty(l: RawLink, pageNo: nat)
    requires LinkBlockOf(l, pageNo).Some?
    ensures LinkBlockOf(l, pageNo).value.text != ""
  {
  }

  function LinkStep(pageNo: nat): (RawLink, nat) -> Option<Block> {
    (l: RawLink, i: nat) => LinkBlockOf(l, pageNo)
  }

  /** `_extract_links`. */
  method ExtractLinks(links: seq<RawLink>, pageNo: nat) returns (blocks: seq<Block>)
    ensures blocks == Collect(links, LinkStep(pageNo))
  {
    blocks := [];
    for i := 0 to |links|
      invariant blocks == Collect(links[..i], LinkStep(pageNo))
    {
      CollectSnoc(links, i, LinkStep(pageNo));
      var l := links[i];
      if l.kind == Some(LinkUri) {
        var uri := if l.uri.Some? then l.uri.value else "";
        if uri != "" {
          var clip := Strip(l.clipText);
          blocks := blocks + [LinkBlock(AUTO, Some(PageHint(pageNo)), if clip != "" then clip else uri, uri)];
        }
      }
    }
    assert links[..|links|] == links;
  }

  // ---------------------------------------------------------------- tables

  /** `str(cell) if cell else ""`. */
  function CellText(c: Option<string>): string {
    if c.Some? then c.value else ""
  }

  /** One table cell: the cleaned text of the grid entry. */
  function PdfCell(c: Option<string>, isHeader: bool): TableCell {
    Cell(CleanTextSpec(CellText(c), true), isHeader)
  }

  function TableHint(pageNo: nat, idx: nat): string {
    PageHint(pageNo) + "_table_" + NatToString(idx + 1)
  }

  /** The table at index `idx` of page `pageNo`; None for an empty grid. */
  function TableOf(grid: Grid, pageNo: nat, idx: nat): Option<Block> {
    HeaderTable(grid, PdfCell, Some(TableHint(pageNo, idx)))
  }

  /**
   * A non-empty grid gives a valid table with a header, as many rows as the grid, as
   * many columns as its first row, the first row (and only it) of header cells, and
   * each cell holding the cleaned text of its grid entry (an empty entry giving "").
   */
  lemma TableShape(grid: Grid, pageNo: nat, idx: nat)
    ensures TableOf(grid, pageNo, idx).None? <==> |grid| == 0
    ensures TableOf(grid, pageNo, idx).Some? ==>
      var t := TableOf(grid, pageNo, idx).value;
      && t.TableBlock? && t.hasHeader && t.rowCount == |grid| && t.columnCount == |grid[0]|
      && t.positionHint == Some(TableHint(pageNo, idx)) && ValidBlock(t)
      && (forall k :: 0 <= k < |grid| ==>
            |t.rows[k].cells| == |grid[k]| && (t.rows[k].isHeaderRow <==> k == 0))
      && (forall k, j :: 0 <= k < |grid| && 0 <= j < |grid[k]| ==>
            t.rows[k].cells[j].content == CleanTextSpec(CellText(grid[k][j]), true)
            && (t.rows[k].cells[j].isHeader <==> k == 0))
  {
    HeaderTableShape(grid, PdfCell, Some(TableHint(pageNo, idx)));
  }

  function TableStep(pageNo: nat): (Grid, nat) -> Option<Block> {
    (g: Grid, i: nat) => TableOf(g, pageNo, i)
  }

  /** `_extract_tables`: the non-empty tables in order, numbered by their index among all detected tables. */
  method ExtractTables(grids: seq<Grid>, pageNo: nat) returns (blocks: seq<Block>)
    ensures blocks == Collect(grids, TableStep(pageNo))
  {
    blocks := [];
    for i := 0 to |grids|
      invariant blocks == Collect(grids[..i], TableStep(pageNo))
    {
      CollectSnoc(grids, i, TableStep(pageNo));
      if |grids[i]| == 0 {
        continue;
      }
      var rows := BuildHeaderRows(grids[i], PdfCell);
      blocks := blocks + [TableBlock(AUTO, Some(TableHint(pageNo, i)), rows, None, true, |rows[0].cells|, |rows|)];
    }
    assert grids[..|grids|] == grids;
  }

  // ---------------------------------------------------------------- pages

  /**
   * `_extract_page`: text blocks, then images, then links, then tables; the page
   * direction is detected on the text blocks alone.
   */
  function PageOf(raw: RawPage, pageNo: nat, ids: (nat, nat) -> string): Page {
    var texts := Collect(raw.blocks, TextStep(pageNo));
    var blocks := texts + Collect(raw.images, ImageStep(pageNo, ids))
      + Collect(raw.links, LinkStep(pageNo)) + Collect(raw.tables, TableStep(pageNo));
    Page(pageNo, None, blocks, TextExtractor.DirectionOf(TextOfBlocks(texts)))
  }

  method ExtractPage(raw: RawPage, pageNo: nat, ids: (nat, nat) -> string) returns (p: Page)
    ensures p == PageOf(raw, pageNo, ids)
  {
    var texts := ExtractTextBlocks(raw.blocks, pageNo);
    var images := ExtractImages(raw.images, pageNo, ids);
    var links := ExtractLinks(raw.links, pageNo);
    var tables := ExtractTables(raw.tables, pageNo);
    var d := DetectTextDirection(TextOfBlocks(texts));
    p := Page(pageNo, None, texts + images + links + tables, if d == "rtl" then RTL else LTR);
  }

  /** Every block a collecting step produces is valid. */
  ghost predicate StepValid<T(!new)>(f: (T, nat) -> Option<Block>) {
    forall x: T, i: nat :: f(x, i).Some? ==> ValidBlock(f(x, i).value)
  }

  lemma CollectedValid<T(!new)>(s: seq<T>, f: (T, nat) -> Option<Block>)
    requires StepValid(f)
    ensures forall b :: b in Collect(s, f) ==> ValidBlock(b)
  {
    forall b | b in Collect(s, f) ensures ValidBlock(b) {
      CollectFrom(s, f, b);
    }
  }

  /** A page is numbered as given and holds only valid blocks. */
  lemma PageValid(raw: RawPage, pageNo: nat, ids: (nat, nat) -> string)
    requires pageNo >= 1
    ensures ValidPage(PageOf(raw, pageNo, ids))
    ensures PageOf(raw, pageNo, ids).pageNumber == pageNo
  {
    forall x: RawBlock, i: nat | TextStep(pageNo)(x, i).Some? ensures ValidBlock(TextStep(pageNo)(x, i).value) {
      if TextStep(pageNo)(x, i).value.HeadingBlock? {
        HeadingShape(x, pageNo);
      }
    }
    forall x: Option<RawImage>, i: nat | ImageStep(pageNo, ids)(x, i).Some?
      ensures ValidBlock(ImageStep(pageNo, ids)(x, i).value)
    {
      assert ImageStep(pageNo, ids)(x, i) == ImageBlockOf(x, pageNo, i, ids(pageNo, i));
    }
    forall x: RawLink, i: nat | LinkStep(pageNo)(x, i).Some? ensures ValidBlock(LinkStep(pageNo)(x, i).value) {
    }
    forall x: Grid, i: nat | TableStep(pageNo)(x, i).Some? ensures ValidBlock(TableStep(pageNo)(x, i).value) {
      TableShape(x, pageNo, i);
    }
    CollectedValid(raw.blocks, TextStep(pageNo));
    CollectedValid(raw.images, ImageStep(pageNo, ids));
    CollectedValid(raw.links, LinkStep(pageNo));
    CollectedValid(raw.tables, TableStep(pageNo));
  }

  // ---------------------------------------------------------------- metadata

  /** `datetime.strptime(s, '%Y%m%d%H%M%S')`, None where it raises; a library call that stays abstract. */
  const ParseTimestamp: string -> Option<DateTime>

  /** What `_parse_pdf_date` hands to the parser: a leading "D:" dropped, then at most 14 characters. */
  function PdfDateDigits(s: string): (r: string)
    ensures |r| <= 14
  {
    SliceTo(if StartsWith(s, "D:") then s[2..] else s, 14)
  }

  /** `_parse_pdf_date`: None for "", else the timestamp parse of the date digits. */
  function ParsePdfDate(s: string): (r: Option<DateTime>)
    ensures s == "" ==> r.None?
    ensures s != "" ==> r == ParseTimestamp(PdfDateDigits(s))
  {
    if s == "" then None else ParseTimestamp(PdfDateDigits(s))
  }

  /**
   * The parser sees the first 14 characters after one leading "D:", or the first
   * 14 characters of a string without that prefix.
   */
  lemma PdfDateDigitsSpec(x: string)
    ensures PdfDateDigits("D:" + x) == x[..if |x| < 14 then |x| else 14]
    ensures !StartsWith(x, "D:") ==> PdfDateDigits(x) == x[..if |x| < 14 then |x| else 14]
  {
    assert ("D:" + x)[..2] == "D:";
    assert ("D:" + x)[2..] == x;
  }

  /** `_extract_metadata`. */
  function ExtractMetadata(info: PdfInfo, pageCount: nat, base: Metadata): (m: Metadata)
    ensures m.title == (if Truthy(info.title) then info.title else base.sourceFilename)
    ensures m.author == info.author && m.subject == info.subject
    ensures m.keywords == ParseKeywords(info.keywords)
    ensures m.createdDate == (if Truthy(info.creationDate) then ParsePdfDate(info.creationDate.value) else None)
    ensures m.modifiedDate ==
      (if Truthy(info.modDate) && ParsePdfDate(info.modDate.value).Some? then ParsePdfDate(info.modDate.value)
       else base.modifiedDate)
    ensures m.pageCount == Some(pageCount as int) && m.sourceFormat == Some("pdf")
    ensures m.sourceFilename == base.sourceFilename && m.language.None? && m.wordCount.None?
  {
    var created := if Truthy(info.creationDate) then ParsePdfDate(info.creationDate.value) else None;
    var parsedMod := if Truthy(info.modDate) then ParsePdfDate(info.modDate.value) else None;
    var modified := if parsedMod.Some? then parsedMod else base.modifiedDate;
    Metadata(if Truthy(info.title) then info.title else base.sourceFilename, info.author, created, modified,
             info.subject, ParseKeywords(info.keywords), None, Some(pageCount as int), None, Some("pdf"),
             base.sourceFilename)
  }

  // ---------------------------------------------------------------- document

  function PageStep(ids: (nat, nat) -> string): (RawPage, nat) -> Page {
    (raw: RawPage, i: nat) => PageOf(raw, i + 1, ids)
  }

  /** `extract`: pages numbered from 1; title from the properties, else the file name, else the stem. */
  function ExtractSpec(path: string, pdf: RawPdf, base: Metadata, ids: (nat, nat) -> string): Document {
    var m := ExtractMetadata(pdf.info, |pdf.pages|, base);
    var pages := MapIndexed(pdf.pages, PageStep(ids));
    Document(if Truthy(m.title) then m.title else Some(Stem(path)), m, pages,
             TextExtractor.DirectionOf(TextOfBlocks(AllBlocks(pages))))
  }

  method Extract(path: string, pdf: RawPdf, base: Metadata, ids: (nat, nat) -> string) returns (d: Document)
    ensures d == ExtractSpec(path, pdf, base, ids)
  {
    var m := ExtractMetadata(pdf.info, |pdf.pages|, base);
    var pages: seq<Page> := [];
    for i := 0 to |pdf.pages|
      invariant pages == MapIndexed(pdf.pages[..i], PageStep(ids))
    {
      MapIndexedSnoc(pdf.pages, i, PageStep(ids));
      var p := ExtractPage(pdf.pages[i], i + 1, ids);
      pages := pages + [p];
    }
    assert pdf.pages[..|pdf.pages|] == pdf.pages;
    var dir := DetectTextDirection(TextOfBlocks(AllBlocks(pages)));
    d := Document(if Truthy(m.title) then m.title else Some(Stem(path)), m, pages, if dir == "rtl" then RTL else LTR);
  }

  /** One page per PDF page, in order, numbered from 1; the metadata counts them. */
  lemma ExtractPages(path: string, pdf: RawPdf, base: Metadata, ids: (nat, nat) -> string)
    ensures var d := ExtractSpec(path, pdf, base, ids);
      && |d.pages| == |pdf.pages| && d.metadata.pageCount == Some(|d.pages|)
      && (forall k :: 0 <= k < |d.pages| ==> d.pages[k] == PageOf(pdf.pages[k], k + 1, ids))
  {
    var pages := MapIndexed(pdf.pages, PageStep(ids));
    forall k | 0 <= k < |pages|
      ensures pages[k] == PageOf(pdf.pages[k], k + 1, ids)
    {
      MapIndexedAt(pdf.pages, PageStep(ids), k);
    }
  }

  /** Every page of the extracted document satisfies the record constraints. */
  lemma ExtractValid(path: string, pdf: RawPdf, base: Metadata, ids: (nat, nat) -> string)
    ensures ValidDocument(ExtractSpec(path, pdf, base, ids))
  {
    var pages := MapIndexed(pdf.pages, PageStep(ids));
    forall k | 0 <= k < |pages| ensures ValidPage(pages[k]) {
      MapIndexedAt(pdf.pages, PageStep(ids), k);
      PageStepValid(pdf.pages[k], k, ids);
    }
    PagesValid(ExtractSpec(path, pdf, base, ids), pages);
  }

  lemma PageStepValid(raw: RawPage, i: nat, ids: (nat, nat) -> string)
    ensures ValidPage(PageStep(ids)(raw, i))
  {
    PageValid(raw, i + 1, ids);
  }

  lemma PagesValid(d: Document, pages: seq<Page>)
    requires d.pages == pages
    requires forall k :: 0 <= k < |pages| ==> ValidPage(pages[k])
    ensures ValidDocument(d)
  {
  }

  /** The title is the PDF title when set, else the file name when set, else the stem of the path. */
  lemma ExtractTitle(path: string, pdf: RawPdf, base: Metadata, ids: (nat, nat) -> string)
    ensures ExtractSpec(path, pdf, base, ids).title ==
      if Truthy(pdf.info.title) then pdf.info.title
      else if Truthy(base.sourceFilename) then base.sourceFilename else Some(Stem(path))
  {
  }
}
