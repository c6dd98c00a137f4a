/**
 * The PowerPoint extractor over an abstract view of a python-pptx presentation: the
 * slides in order, each a sequence of shapes. A title placeholder gives the slide's
 * level-1 heading and its title; text frames give level-2 headings for short
 * top-level paragraphs and paragraphs otherwise; tables become header tables and
 * pictures image blocks. Slide k is page k.
 */
module PptxExtractor {
  import opened Wrappers
  import opened Strings
  import opened Seqs
  import opened Paths
  import opened DocumentModel
  import opened TextUtils
  import opened ImageUtils
  import opened BaseExtractor
  import opened Tables
  import TextExtractor

  const SupportedExtensions: seq<string> := [".pptx"]

  /** The placeholder type of a slide title. */
  const TitlePlaceholder := 1

  /** The font of a run: its `bold` and `italic` properties (None when inherited). */
  datatype FontRun = FontRun(bold: Option<bool>, italic: Option<bool>)

  /** A paragraph of a text frame: its text, its outline level and its runs. */
  datatype PptxParagraph = PptxParagraph(text: string, level: int, runs: seq<FontRun>)

  /** The picture of a shape: its bytes and its extension. */
  datatype Picture = Picture(blob: seq<byte>, ext: string)

  /**
   * A shape: whether it is a placeholder, its `text` (None when it has none), its
   * placeholder type, whether it has a text frame and the frame's paragraphs, its table
   * (a grid of cell texts) when it has one, whether it is a picture, and the picture's
   * data (None where reading it raises).
   */
  datatype Shape = Shape(isPlaceholder: bool, text: Option<string>, placeholderType: Option<int>,
                         hasTextFrame: bool, paragraphs: seq<PptxParagraph>,
                         table: Option<seq<seq<string>>>, isPicture: bool, picture: Option<Picture>)

  datatype Slide = Slide(shapes: seq<Shape>)

  datatype PptxFile = PptxFile(core: CoreProps, slides: seq<Slide>)

  // ---------------------------------------------------------------- metadata

  /** `_extract_metadata`: the page count is filled in by `extract`. */
  function ExtractMetadata(core: CoreProps, base: Metadata): (m: Metadata)
    ensures m.title == (if Truthy(core.title) then core.title else base.sourceFilename)
    ensures m.author == core.author && m.subject == core.subject && m.createdDate == core.created
    ensures m.modifiedDate == (if core.modified.Some? then core.modified else base.modifiedDate)
    ensures m.keywords == ParseKeywords(core.keywords)
    ensures m.pageCount.None? && m.wordCount.None? && m.language.None?
    ensures m.sourceFormat == Some("pptx") && m.sourceFilename == base.sourceFilename
  {
    Metadata(if Truthy(core.title) then core.title else base.sourceFilename, core.author, core.created,
             if core.modified.Some? then core.modified else base.modifiedDate,
             core.subject, ParseKeywords(core.keywords), None, None, None, Some("pptx"), base.sourceFilename)
  }

  // ---------------------------------------------------------------- text frames

  function SlideHint(slideNo: nat): string {
    "slide_" + NatToString(slideNo)
  }

  /** `any(run.font.bold for run in runs if run.font.bold)`. */
  predicate AnyBold(runs: seq<FontRun>) {
    exists k :: 0 <= k < |runs| && runs[k].bold == Some(true)
  }

  predicate AnyItalic(runs: seq<FontRun>) {
    exists k :: 0 <= k < |runs| && runs[k].italic == Some(true)
  }

  /** A short top-level paragraph is a heading. */
  predicate IsFrameHeading(level: int, t: string) {
    level == 0 && |t| < 100
  }

  /** The decision on a paragraph with cleaned text `t`. */
  function ClassifyFrameParagraph(t: string, p: PptxParagraph, slideNo: nat): Option<Block> {
    if t == "" then None
    else
      var dir := TextExtractor.DirectionOf(t);
      if IsFrameHeading(p.level, t) then Some(HeadingBlock(dir, Some(SlideHint(slideNo)), 2, t, []))
      else Some(ParagraphBlock(dir, Some(SlideHint(slideNo)), t, [], AnyBold(p.runs), AnyItalic(p.runs)))
  }

  /** One paragraph of a text frame: None when it cleans to "". */
  function FrameParagraphOf(p: PptxParagraph, slideNo: nat): Option<Block> {
    ClassifyFrameParagraph(CleanTextSpec(p.text, true), p, slideNo)
  }

  /**
   * Nothing for an empty cleaned text; a level-2 heading (level 0 plus 2) for a
   * top-level paragraph shorter than 100 characters; otherwise a paragraph, bold
   * (italic) exactly when some run is explicitly bold (italic). The text is the
   * cleaned paragraph text and the hint names the slide.
   */
  lemma ClassifyFrameParagraphSpec(t: string, p: PptxParagraph, slideNo: nat)
    ensures var r := ClassifyFrameParagraph(t, p, slideNo);
      && (r.None? <==> t == "")
      && (r.Some? ==> r.value.text == t && r.value.positionHint == Some(SlideHint(slideNo))
                      && r.value.direction == TextExtractor.DirectionOf(t) && ValidBlock(r.value))
      && (r.Some? ==> (r.value.HeadingBlock? <==> p.level == 0 && |t| < 100))
      && (r.Some? && r.value.HeadingBlock? ==> r.value.level == 2)
      && (r.Some? && !r.value.HeadingBlock? ==>
            r.value.ParagraphBlock?
            && (r.value.isBold <==> exists k :: 0 <= k < |p.runs| && p.runs[k].bold == Some(true))
            && (r.value.isItalic <==> exists k :: 0 <= k < |p.runs| && p.runs[k].italic == Some(true)))
  {
  }

  function FrameStep(slideNo: nat): (PptxParagraph, nat) -> Option<Block> {
    (p: PptxParagraph, i: nat) => FrameParagraphOf(p, slideNo)
  }

  /** The blocks of a text frame, in paragraph order. */
  function FrameBlocks(paras: seq<PptxParagraph>, slideNo: nat): seq<Block> {
    Collect(paras, FrameStep(slideNo))
  }

  /** One paragraph of the text-frame loop. */
  method FrameParagraphAt(p: PptxParagraph, slideNo: nat) returns (b: Option<Block>)
    ensures b == FrameParagraphOf(p, slideNo)
  {
    var t := CleanText(p.text, true);
    if t == "" {
      return None;
    }
    var d := DetectTextDirection(t);
    var dir := if d == "rtl" then RTL else LTR;
    if p.level == 0 && |t| < 100 {
      b := Some(HeadingBlock(dir, Some(SlideHint(slideNo)), 2, t, []));
    } else {
      b := Some(ParagraphBlock(dir, Some(SlideHint(slideNo)), t, [], AnyBold(p.runs), AnyItalic(p.runs)));
    }
  }

  /** `_extract_text_frame`. */
  method ExtractTextFrame(paras: seq<PptxParagraph>, slideNo: nat) returns (blocks: seq<Block>)
    ensures blocks == FrameBlocks(paras, slideNo)
  {
    blocks := [];
    for i := 0 to |paras|
      invariant blocks == Collect(paras[..i], FrameStep(slideNo))
    {
      CollectSnoc(paras, i, FrameStep(slideNo));
      var b := FrameParagraphAt(paras[i], slideNo);
      if b.Some? {
        blocks := blocks + [b.value];
      }
    }
    assert paras[..|paras|] == paras;
  }

  lemma FrameBlocksValid(paras: seq<PptxParagraph>, slideNo: nat)
    ensures forall b :: b in FrameBlocks(paras, slideNo) ==> ValidBlock(b) && !b.ImageBlock?
  {
    forall b | b in FrameBlocks(paras, slideNo) ensures ValidBlock(b) && !b.ImageBlock? {
      CollectFrom(paras, FrameStep(slideNo), b);
      var i :| 0 <= i < |paras| && FrameStep(slideNo)(paras[i], i) == Some(b);
      ClassifyFrameParagraphSpec(CleanTextSpec(paras[i].text, true), paras[i], slideNo);
    }
  }

  // ---------------------------------------------------------------- tables and pictures

  function PptxCell(c: string, isHeader: bool): TableCell {
    Cell(CleanTextSpec(c, true), isHeader)
  }

  /** `_extract_table`: None for a table without rows. */
  function TableOf(grid: seq<seq<string>>, slideNo: nat): Option<Block> {
    HeaderTable(grid, PptxCell, Some(SlideHint(slideNo)))
  }

  /**
   * A table without rows gives nothing; otherwise a valid header table with one row
   * per table row, row 0 (and only it) the header, the column count of row 0, and
   * each cell the cleaned text of the source cell.
   */
  lemma TableShape(grid: seq<seq<string>>, slideNo: nat)
    ensures TableOf(grid, slideNo).None? <==> |grid| == 0
    ensures TableOf(grid, slideNo).Some? ==>
      var t := TableOf(grid, slideNo).value;
      && t.TableBlock? && t.hasHeader && t.rowCount == |grid| && t.columnCount == |grid[0]|
      && t.positionHint == Some(SlideHint(slideNo)) && ValidBlock(t)
      && (forall k :: 0 <= k < |grid| ==>
            |t.rows[k].cells| == |grid[k]| && (t.rows[k].isHeaderRow <==> k == 0))
      && (forall k, j :: 0 <= k < |grid| && 0 <= j < |grid[k]| ==>
            t.rows[k].cells[j].content == CleanTextSpec(grid[k][j], true)
            && (t.rows[k].cells[j].isHeader <==> k == 0))
  {
    HeaderTableShape(grid, PptxCell, Some(SlideHint(slideNo)));
  }

  /** `_extract_image`: None where reading the picture raises. */
  function ImageOf(pic: Option<Picture>, slideNo: nat, id: string): (r: Option<Block>)
    ensures r.Some? <==> pic.Some?
    ensures r.Some? ==> (r.value.ImageBlock? && r.value.imageId == id
      && r.value.imageFormat == Some(pic.value.ext)
      && r.value.imageData == Some(ImageToBase64(pic.value.blob, pic.value.ext))
      && r.value.positionHint == Some(SlideHint(slideNo)))
  {
    if pic.None? then None
    else Some(ImageBlock(AUTO, Some(SlideHint(slideNo)), id, None, None,
                         Some(ImageToBase64(pic.value.blob, pic.value.ext)), None, Some(pic.value.ext), None, None))
  }

  // ---------------------------------------------------------------- shapes

  /** The cleaned text of a title placeholder that has text; None for every other shape. */
  function ShapeTitle(sh: Shape): Option<string> {
    if sh.isPlaceholder && Truthy(sh.text) && sh.placeholderType == Some(TitlePlaceholder)
    then Some(CleanTextSpec(sh.text.value, true)) else None
  }

  function TitleBlock(t: string, slideNo: nat): Block {
    HeadingBlock(TextExtractor.DirectionOf(t), Some(SlideHint(slideNo) + "_title"), 1, t, [])
  }

  /** The text part of a shape: a title heading, the text-frame blocks, or nothing. */
  function ShapeTextBlocks(sh: Shape, slideNo: nat): seq<Block> {
    if sh.isPlaceholder then
      if !Truthy(sh.text) then []
      else if sh.placeholderType == Some(TitlePlaceholder) then [TitleBlock(CleanTextSpec(sh.text.value, true), slideNo)]
      else FrameBlocks(sh.paragraphs, slideNo)
    else if sh.hasTextFrame then FrameBlocks(sh.paragraphs, slideNo)
    else []
  }

  function OptionalBlock(b: Option<Block>): seq<Block> {
    if b.Some? then [b.value] else []
  }

  /** The blocks of one shape: its text part, then its table, then its picture. */
  function ShapeBlocks(sh: Shape, slideNo: nat, id: string): seq<Block> {
    ShapeTextBlocks(sh, slideNo)
      + (if sh.table.Some? then OptionalBlock(TableOf(sh.table.value, slideNo)) else [])
      + (if sh.isPicture then OptionalBlock(ImageOf(sh.picture, slideNo, id)) else [])
  }

  function ShapeStep(slideNo: nat, ids: (nat, nat) -> string): (Shape, nat) -> seq<Block> {
    (sh: Shape, i: nat) => ShapeBlocks(sh, slideNo, ids(slideNo, i))
  }

  /** The title of a slide: that of the last title placeholder with text, None when there is none. */
  function SlideTitle(shapes: seq<Shape>): Option<string> {
    LastSome(shapes, ShapeTitle)
  }

  /** The title heading of a title shape is the first block of that shape. */
  lemma TitleShapeBlocks(sh: Shape, slideNo: nat, id: string)
    requires ShapeTitle(sh).Some?
    ensures ShapeBlocks(sh, slideNo, id)[0] == TitleBlock(ShapeTitle(sh).value, slideNo)
  {
  }

  /**
   * A slide has a title exactly when some shape is a title placeholder with text; the
   * title is then the cleaned text of the last such shape.
   */
  lemma SlideTitleSpec(shapes: seq<Shape>)
    ensures SlideTitle(shapes).None? <==> forall i :: 0 <= i < |shapes| ==> ShapeTitle(shapes[i]).None?
    ensures SlideTitle(shapes).Some? ==>
      exists i :: 0 <= i < |shapes| && ShapeTitle(shapes[i]) == SlideTitle(shapes)
        && forall j :: i < j < |shapes| ==> ShapeTitle(shapes[j]).None?
  {
    LastSomeSpec(shapes, ShapeTitle);
  }

  /** The text part of one shape of the slide loop, and its title when it is a title placeholder with text. */
  method ExtractShapeText(sh: Shape, slideNo: nat) returns (blocks: seq<Block>, title: Option<string>)
    ensures blocks == ShapeTextBlocks(sh, slideNo) && title == ShapeTitle(sh)
  {
    blocks := [];
    title := None;
    if sh.isPlaceholder {
      if sh.text.Some? && sh.text.value != "" {
        if sh.placeholderType == Some(TitlePlaceholder) {
          var t := CleanText(sh.text.value, true);
          var d := DetectTextDirection(t);
          title := Some(t);
          blocks := [HeadingBlock(if d == "rtl" then RTL else LTR, Some(SlideHint(slideNo) + "_title"), 1, t, [])];
        } else {
          blocks := ExtractTextFrame(sh.paragraphs, slideNo);
        }
      }
    } else if sh.hasTextFrame {
      blocks := ExtractTextFrame(sh.paragraphs, slideNo);
    }
  }

  /** One shape of the slide loop: its blocks, and its title when it is a title placeholder with text. */
  method ExtractShape(sh: Shape, slideNo: nat, id: string) returns (blocks: seq<Block>, title: Option<string>)
    ensures blocks == ShapeBlocks(sh, slideNo, id) && title == ShapeTitle(sh)
  {
    var text;
    text, title := ExtractShapeText(sh, slideNo);
    var table: seq<Block> := [];
    if sh.table.Some? {
      var t := BuildHeaderTable(sh.table.value, PptxCell, Some(SlideHint(slideNo)));
      table := OptionalBlock(t);
    }
    var picture: seq<Block> := [];
    if sh.isPicture {
      picture := OptionalBlock(ImageOf(sh.picture, slideNo, id));
    }
    blocks := text + table + picture;
  }

  // ---------------------------------------------------------------- slides

  /** `_extract_slide`: the shapes' blocks in order, the slide title, and the direction of their text. */
  function SlideOf(slide: Slide, slideNo: nat, ids: (nat, nat) -> string): Page {
    var blocks := FlatMapIndexed(slide.shapes, ShapeStep(slideNo, ids));
    Page(slideNo, SlideTitle(slide.shapes), blocks, TextExtractor.DirectionOf(TextOfBlocks(blocks)))
  }

  method ExtractSlide(slide: Slide, slideNo: nat, ids: (nat, nat) -> string) returns (p: Page)
    ensures p == SlideOf(slide, slideNo, ids)
  {
    var shapes := slide.shapes;
    var blocks: seq<Block> := [];
    var title: Option<string> := None;
    for i := 0 to |shapes|
      invariant blocks == FlatMapIndexed(shapes[..i], ShapeStep(slideNo, ids))
      invariant title == SlideTitle(shapes[..i])
    {
      FlatMapIndexedSnoc(shapes, i, ShapeStep(slideNo, ids));
      LastSomeSnoc(shapes, i, ShapeTitle);
      var bs, t := ExtractShape(shapes[i], slideNo, ids(slideNo, i));
      blocks := blocks + bs;
      if t.Some? {
        title := t;
      }
    }
    assert shapes[..|shapes|] == shapes;
    var d := DetectTextDirection(TextOfBlocks(blocks));
    p := Page(slideNo, title, blocks, if d == "rtl" then RTL else LTR);
  }

  /** The title of a slide is the text of a level-1 heading on its page, hinted as the slide's title. */
  lemma SlideTitleOnPage(slide: Slide, slideNo: nat, ids: (nat, nat) -> string)
    ensures var p := SlideOf(slide, slideNo, ids);
      p.title.Some? ==>
        exists b :: b in p.blocks && b.HeadingBlock? && b.level == 1 && b.text == p.title.value
          && b.positionHint == Some(SlideHint(slideNo) + "_title")
  {
    var shapes := slide.shapes;
    SlideTitleSpec(shapes);
    if SlideTitle(shapes).Some? {
      var i :| 0 <= i < |shapes| && ShapeTitle(shapes[i]) == SlideTitle(shapes);
      TitleBlockOnPage(shapes, i, slideNo, ids);
    }
  }

  lemma TitleBlockOnPage(shapes: seq<Shape>, i: nat, slideNo: nat, ids: (nat, nat) -> string)
    requires i < |shapes| && ShapeTitle(shapes[i]).Some?
    ensures TitleBlock(ShapeTitle(shapes[i]).value, slideNo) in FlatMapIndexed(shapes, ShapeStep(slideNo, ids))
  {
    var b := TitleBlock(ShapeTitle(shapes[i]).value, slideNo);
    TitleShapeBlocks(shapes[i], slideNo, ids(slideNo, i));
    assert b in ShapeStep(slideNo, ids)(shapes[i], i);
    FlatMapIndexedTo(shapes, ShapeStep(slideNo, ids), i, b);
  }

  /** Every block a shape yields is valid. */
  lemma ShapeBlocksValid(sh: Shape, slideNo: nat, id: string)
    ensures forall b :: b in ShapeBlocks(sh, slideNo, id) ==> ValidBlock(b)
  {
    FrameBlocksValid(sh.paragraphs, slideNo);
    if sh.table.Some? {
      TableShape(sh.table.value, slideNo);
    }
  }

  lemma ShapeStepValid(sh: Shape, i: nat, slideNo: nat, ids: (nat, nat) -> string)
    ensures forall b :: b in ShapeStep(slideNo, ids)(sh, i) ==> ValidBlock(b)
  {
    ShapeBlocksValid(sh, slideNo, ids(slideNo, i));
  }

  /** A slide numbered from 1 gives a valid page with that number. */
  lemma SlideValid(slide: Slide, slideNo: nat, ids: (nat, nat) -> string)
    requires slideNo >= 1
    ensures ValidPage(SlideOf(slide, slideNo, ids)) && SlideOf(slide, slideNo, ids).pageNumber == slideNo
  {
    forall b | b in FlatMapIndexed(slide.shapes, ShapeStep(slideNo, ids)) ensures ValidBlock(b) {
      FlatMapIndexedFrom(slide.shapes, ShapeStep(slideNo, ids), b);
      var i :| 0 <= i < |slide.shapes| && b in ShapeStep(slideNo, ids)(slide.shapes[i], i);
      ShapeStepValid(slide.shapes[i], i, slideNo, ids);
    }
  }

  // ---------------------------------------------------------------- document

  function SlideStep(ids: (nat, nat) -> string): (Slide, nat) -> Page {
    (s: Slide, i: nat) => SlideOf(s, i + 1, ids)
  }

  /** `extract`: slide k is page k; the metadata counts the pages; the title falls back to the stem. */
  function ExtractSpec(path: string, f: PptxFile, base: Metadata, ids: (nat, nat) -> string): Document {
    var pages := MapIndexed(f.slides, SlideStep(ids));
    var m := ExtractMetadata(f.core, base).(pageCount := Some(|pages|));
    Document(if Truthy(m.title) then m.title else Some(Stem(path)), m, pages,
             TextExtractor.DirectionOf(TextOfBlocks(AllBlocks(pages))))
  }

  /** The slide loop of `extract`. */
  method ExtractSlides(slides: seq<Slide>, ids: (nat, nat) -> string) returns (pages: seq<Page>)
    ensures pages == MapIndexed(slides, SlideStep(ids))
  {
    pages := [];
    for i := 0 to |slides|
      invariant pages == MapIndexed(slides[..i], SlideStep(ids))
    {
      MapIndexedSnoc(slides, i, SlideStep(ids));
      SlideStepAt(slides[i], i, ids);
      var p := ExtractSlide(slides[i], i + 1, ids);
      pages := pages + [p];
    }
    assert slides[..|slides|] == slides;
  }

  method Extract(path: string, f: PptxFile, base: Metadata, ids: (nat, nat) -> string) returns (d: Document)
    ensures d == ExtractSpec(path, f, base, ids)
  {
    var m := ExtractMetadata(f.core, base);
    var pages := ExtractSlides(f.slides, ids);
    var dir := DetectTextDirection(TextOfBlocks(AllBlocks(pages)));
    m := m.(pageCount := Some(|pages|));
    d := Document(if Truthy(m.title) then m.title else Some(Stem(path)), m, pages, if dir == "rtl" then RTL else LTR);
  }

  /** One page per slide, in order: slide k (from 1) is page k; the page count is the number of slides. */
  lemma ExtractPages(path: string, f: PptxFile, base: Metadata, ids: (nat, nat) -> string)
    ensures var d := ExtractSpec(path, f, base, ids);
      && |d.pages| == |f.slides| && d.metadata.pageCount == Some(|f.slides|)
      && (forall k :: 0 <= k < |d.pages| ==>
            d.pages[k] == SlideOf(f.slides[k], k + 1, ids) && d.pages[k].pageNumber == k + 1)
  {
    var pages := MapIndexed(f.slides, SlideStep(ids));
    forall k | 0 <= k < |pages|
      ensures pages[k] == SlideOf(f.slides[k], k + 1, ids) && pages[k].pageNumber == k + 1
    {
      PageAt(f.slides, ids, k);
    }
  }

  lemma PageAt(slides: seq<Slide>, ids: (nat, nat) -> string, k: nat)
    requires k < |slides|
    ensures MapIndexed(slides, SlideStep(ids))[k] == SlideOf(slides[k], k + 1, ids)
    ensures MapIndexed(slides, SlideStep(ids))[k].pageNumber == k + 1
  {
    MapIndexedAt(slides, SlideStep(ids), k);
    SlideStepAt(slides[k], k, ids);
  }

  lemma SlideStepAt(s: Slide, k: nat, ids: (nat, nat) -> string)
    ensures SlideStep(ids)(s, k) == SlideOf(s, k + 1, ids) && SlideStep(ids)(s, k).pageNumber == k + 1
  {
  }

  lemma SlideStepValid(s: Slide, i: nat, ids: (nat, nat) -> string)
    ensures ValidPage(SlideStep(ids)(s, i))
  {
    SlideValid(s, i + 1, ids);
  }

  /** Every page of the extracted document satisfies the record constraints. */
  lemma ExtractValid(path: string, f: PptxFile, base: Metadata, ids: (nat, nat) -> string)
    ensures ValidDocument(ExtractSpec(path, f, base, ids))
  {
    var pages := MapIndexed(f.slides, SlideStep(ids));
    forall k | 0 <= k < |pages| ensures ValidPage(pages[k]) {
      MapIndexedAt(f.slides, SlideStep(ids), k);
      SlideStepValid(f.slides[k], k, ids);
    }
    PagesValid(ExtractSpec(path, f, base, ids), pages);
  }

  lemma PagesValid(d: Document, pages: seq<Page>)
    requires d.pages == pages
    requires forall k :: 0 <= k < |pages| ==> ValidPage(pages[k])
    ensures ValidDocument(d)
  {
  }
}
