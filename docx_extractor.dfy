/**
 * The Word extractor over an abstract view of a python-docx document: the body
 * elements in order (each with its tag, its paragraph view and its table view), the
 * package relationships in order, and the core properties. Paragraphs are classified
 * by their style name, tables become header tables, and every image relationship
 * becomes an image block placed after the whole body on the single page.
 */
module DocxExtractor {
  import opened Wrappers
  import opened Strings
  import opened Seqs
  import opened Paths
  import opened DocumentModel
  import opened TextUtils
  import opened ImageUtils
  import opened BaseExtractor
  import opened Tables
  import TextExtractor

  const SupportedExtensions: seq<string> := [".docx"]

  /** A run of a paragraph: its `bold` and `italic` properties (None when inherited). */
  datatype Run = Run(bold: Option<bool>, italic: Option<bool>)

  /**
   * A `w:hyperlink` child of a paragraph: its `r:id` attribute and the text of its first
   * `w:t` child (None when there is no such element or it has no text).
   */
  datatype Hyperlink = Hyperlink(rId: Option<string>, firstText: Option<string>)

  /**
   * A relationship of the document part: its id, its type, its target reference, and
   * the bytes of its target part (None where reading them raises, as for an external target).
   */
  datatype Rel = Rel(id: string, relType: string, targetRef: string, blob: Option<seq<byte>>)

  /** A paragraph: its text, its style name (None without a style), whether it has `w:numPr`, its runs and hyperlinks. */
  datatype DocxParagraph = DocxParagraph(text: string, style: Option<string>, hasNumPr: bool,
                                         runs: seq<Run>, hyperlinks: seq<Hyperlink>)

  /** A body element: its tag, read as a paragraph or as a table (grid of cell texts) according to the tag. */
  datatype BodyElement = BodyElement(tag: string, para: DocxParagraph, table: seq<seq<string>>)

  datatype DocxFile = DocxFile(core: CoreProps, body: seq<BodyElement>, rels: seq<Rel>)

  // ---------------------------------------------------------------- metadata

  /** `_extract_metadata`: no page count; the modification date falls back to the file's. */
  function ExtractMetadata(core: CoreProps, base: Metadata): (m: Metadata)
    ensures m.title == (if Truthy(core.title) then core.title else base.sourceFilename)
    ensures m.author == core.author && m.subject == core.subject && m.createdDate == core.created
    ensures m.modifiedDate == (if core.modified.Some? then core.modified else base.modifiedDate)
    ensures m.keywords == ParseKeywords(core.keywords)
    ensures m.pageCount.None? && m.wordCount.None? && m.language.None?
    ensures m.sourceFormat == Some("docx") && m.sourceFilename == base.sourceFilename
  {
    Metadata(if Truthy(core.title) then core.title else base.sourceFilename, core.author, core.created,
             if core.modified.Some? then core.modified else base.modifiedDate,
             core.subject, ParseKeywords(core.keywords), None, None, None, Some("docx"), base.sourceFilename)
  }

  // ---------------------------------------------------------------- heading level

  /** The first of `d`..6 whose decimal digit occurs in the style name; 1 when none does. */
  function FirstDigitFrom(style: string, d: nat): (r: int)
    requires 1 <= d <= 7
    decreases 7 - d
  {
    if d == 7 then 1
    else if Contains(style, NatToString(d)) then d
    else FirstDigitFrom(style, d + 1)
  }

  /** The heading level `_get_heading_level` reads from a style name. */
  function HeadingLevelOf(style: string): int {
    FirstDigitFrom(style, 1)
  }

  lemma {:induction false} FirstDigitFromSpec(style: string, d: nat)
    requires 1 <= d <= 7
    ensures 1 <= FirstDigitFrom(style, d) <= 6
    ensures FirstDigitFrom(style, d) >= d || FirstDigitFrom(style, d) == 1
    ensures forall e :: d <= e <= 6 && e < FirstDigitFrom(style, d) ==> !Contains(style, NatToString(e))
    ensures Contains(style, NatToString(FirstDigitFrom(style, d)))
      || (FirstDigitFrom(style, d) == 1 && forall e :: d <= e <= 6 ==> !Contains(style, NatToString(e)))
    decreases 7 - d
  {
    if d < 7 && !Contains(style, NatToString(d)) {
      FirstDigitFromSpec(style, d + 1);
    }
  }

  /**
   * The level is the smallest d in 1..6 whose digit occurs in the style name, and 1
   * when no such digit occurs.
   */
  lemma HeadingLevelSpec(style: string)
    ensures 1 <= HeadingLevelOf(style) <= 6
    ensures forall d :: 1 <= d < HeadingLevelOf(style) ==> !Contains(style, NatToString(d))
    ensures Contains(style, NatToString(HeadingLevelOf(style)))
      || (HeadingLevelOf(style) == 1 && forall d :: 1 <= d <= 6 ==> !Contains(style, NatToString(d)))
  {
    FirstDigitFromSpec(style, 1);
  }

  /** `_get_heading_level`: the search loop with its early return. */
  method GetHeadingLevel(style: string) returns (level: int)
    ensures level == HeadingLevelOf(style)
  {
    var i := 1;
    while i < 7
      invariant 1 <= i <= 7
      invariant FirstDigitFrom(style, i) == HeadingLevelOf(style)
      decreases 7 - i
    {
      if Contains(style, NatToString(i)) {
        return i;
      }
      i := i + 1;
    }
    return 1;
  }

  // ---------------------------------------------------------------- links

  /** `rels.get(id)`: the relationship with that id, if any (relationship ids are unique). */
  function FindRel(rels: seq<Rel>, id: string): (r: Option<Rel>)
    ensures r.Some? ==> r.value in rels && r.value.id == id
    ensures r.None? ==> forall k :: 0 <= k < |rels| ==> rels[k].id != id
  {
    if |rels| == 0 then None
    else if rels[0].id == id then Some(rels[0])
    else FindRel(rels[1..], id)
  }

  /** One hyperlink: kept when it has an id naming a relationship; its text falls back to the target. */
  function LinkOf(h: Hyperlink, rels: seq<Rel>): (r: Option<Link>)
    ensures r.Some? <==> Truthy(h.rId) && FindRel(rels, h.rId.value).Some?
    ensures r.Some? ==>
      var url := FindRel(rels, h.rId.value).value.targetRef;
      && r.value.url == url && r.value.text == Or(h.firstText, url)
      && r.value.startIndex.None? && r.value.endIndex.None?
  {
    if Truthy(h.rId) then
      match FindRel(rels, h.rId.value)
      case Some(rel) => Some(Link(Or(h.firstText, rel.targetRef), rel.targetRef, None, None))
      case None => None
    else None
  }

  function LinkStep(rels: seq<Rel>): (Hyperlink, nat) -> Option<Link> {
    (h: Hyperlink, i: nat) => LinkOf(h, rels)
  }

  /** The links of a paragraph, in order. */
  function ParagraphLinks(p: DocxParagraph, rels: seq<Rel>): seq<Link> {
    Collect(p.hyperlinks, LinkStep(rels))
  }

  /** `_extract_links_from_paragraph`. */
  method ExtractLinks(p: DocxParagraph, rels: seq<Rel>) returns (links: seq<Link>)
    ensures links == ParagraphLinks(p, rels)
  {
    var hs := p.hyperlinks;
    links := [];
    for i := 0 to |hs|
      invariant links == Collect(hs[..i], LinkStep(rels))
    {
      CollectSnoc(hs, i, LinkStep(rels));
      var h := hs[i];
      if h.rId.Some? && h.rId.value != "" {
        var rel := FindRel(rels, h.rId.value);
        if rel.Some? {
          var url := rel.value.targetRef;
          links := links + [Link(Or(h.firstText, url), url, None, None)];
        }
      }
    }
    assert hs[..|hs|] == hs;
  }

  /** Every kept link points at the target of the relationship its hyperlink names, and has text unless that target is "". */
  lemma LinksResolve(p: DocxParagraph, rels: seq<Rel>)
    ensures forall l :: l in ParagraphLinks(p, rels) ==>
      exists r :: r in rels && r.targetRef == l.url && (l.text == "" ==> l.url == "")
  {
    forall l | l in ParagraphLinks(p, rels)
      ensures exists r :: r in rels && r.targetRef == l.url && (l.text == "" ==> l.url == "")
    {
      CollectFrom(p.hyperlinks, LinkStep(rels), l);
      var i :| 0 <= i < |p.hyperlinks| && LinkStep(rels)(p.hyperlinks[i], i) == Some(l);
      var h := p.hyperlinks[i];
      assert LinkOf(h, rels) == Some(l);
      var r := FindRel(rels, h.rId.value).value;
      assert r in rels && r.targetRef == l.url;
    }
  }

  // ---------------------------------------------------------------- paragraphs

  /** `any(run.bold for run in runs if run.bold)`. */
  predicate AnyBold(runs: seq<Run>) {
    exists k :: 0 <= k < |runs| && runs[k].bold == Some(true)
  }

  predicate AnyItalic(runs: seq<Run>) {
    exists k :: 0 <= k < |runs| && runs[k].italic == Some(true)
  }

  /** The lower-cased style name, "" without a style. */
  function StyleName(p: DocxParagraph): string {
    if p.style.Some? then Lower(p.style.value) else ""
  }

  predicate IsHeadingStyle(style: string) {
    Contains(style, "heading")
  }

  predicate IsListStyle(style: string, hasNumPr: bool) {
    Contains(style, "list") || hasNumPr
  }

  predicate IsOrderedStyle(style: string) {
    Contains(style, "number") || Contains(style, "decimal")
  }

  /** The decision of `_extract_paragraph` on cleaned text `t`: heading style, then list, then paragraph. */
  function ClassifyParagraph(t: string, style: string, hasNumPr: bool, runs: seq<Run>, links: seq<Link>): Option<Block> {
    if t == "" then None
    else
      var dir := TextExtractor.DirectionOf(t);
      if IsHeadingStyle(style) then Some(HeadingBlock(dir, None, HeadingLevelOf(style), t, links))
      else if IsListStyle(style, hasNumPr) then Some(ListBlock(dir, None, [t], IsOrderedStyle(style), []))
      else Some(ParagraphBlock(dir, None, t, links, AnyBold(runs), AnyItalic(runs)))
  }

  /** `_extract_paragraph`. */
  function ParagraphOf(p: DocxParagraph, rels: seq<Rel>): Option<Block> {
    ClassifyParagraph(CleanTextSpec(p.text, true), StyleName(p), p.hasNumPr, p.runs, ParagraphLinks(p, rels))
  }

  /**
   * A paragraph whose cleaned text is empty gives nothing. Otherwise a style name
   * holding "heading" gives a heading of the style's level, before the list test; a
   * list style or numbering gives a one-item list, ordered exactly when the style
   * names numbers or decimals, without links; anything else gives a paragraph, bold
   * (italic) exactly when some run is explicitly bold (italic). The text is always the
   * cleaned paragraph text.
   */
  lemma ClassifyParagraphSpec(t: string, style: string, hasNumPr: bool, runs: seq<Run>, links: seq<Link>)
    ensures var r := ClassifyParagraph(t, style, hasNumPr, runs, links);
      && (r.None? <==> t == "")
      && (r.Some? ==> r.value.direction == TextExtractor.DirectionOf(t) && r.value.positionHint.None?)
      && (r.Some? && IsHeadingStyle(style) ==>
            r.value.HeadingBlock? && r.value.text == t && r.value.links == links
            && r.value.level == HeadingLevelOf(style) && 1 <= r.value.level <= 6)
      && (r.Some? && !IsHeadingStyle(style) && IsListStyle(style, hasNumPr) ==>
            r.value.ListBlock? && r.value.items == [t] && r.value.links == []
            && (r.value.isOrdered <==> Contains(style, "number") || Contains(style, "decimal")))
      && (r.Some? && !IsHeadingStyle(style) && !IsListStyle(style, hasNumPr) ==>
            r.value.ParagraphBlock? && r.value.text == t && r.value.links == links
            && (r.value.isBold <==> exists k :: 0 <= k < |runs| && runs[k].bold == Some(true))
            && (r.value.isItalic <==> exists k :: 0 <= k < |runs| && runs[k].italic == Some(true)))
  {
    HeadingLevelSpec(style);
  }

  /** One iteration's paragraph work. */
  method ExtractParagraph(p: DocxParagraph, rels: seq<Rel>) returns (b: Option<Block>)
    ensures b == ParagraphOf(p, rels)
  {
    var t := CleanText(p.text, true);
    if t == "" {
      return None;
    }
    var d := DetectTextDirection(t);
    var dir := if d == "rtl" then RTL else LTR;
    var links := ExtractLinks(p, rels);
    var style := StyleName(p);
    if IsHeadingStyle(style) {
      var level := GetHeadingLevel(style);
      return Some(HeadingBlock(dir, None, level, t, links));
    }
    if IsListStyle(style, p.hasNumPr) {
      return Some(ListBlock(dir, None, [t], IsOrderedStyle(style), []));
    }
    b := Some(ParagraphBlock(dir, None, t, links, AnyBold(p.runs), AnyItalic(p.runs)));
  }

  // ---------------------------------------------------------------- tables

  /** One cell: the cleaned cell text. */
  function DocxCell(c: string, isHeader: bool): TableCell {
    Cell(CleanTextSpec(c, true), isHeader)
  }

  /** `_extract_table`: None for a table without rows; no position hint. */
  function TableOf(grid: seq<seq<string>>): Option<Block> {
    HeaderTable(grid, DocxCell, None)
  }

  /**
   * A table without rows gives nothing; otherwise a valid header table with one row
   * per table row, row 0 (and only it) the header, the column count of row 0, and
   * each cell the cleaned text of the source cell.
   */
  lemma TableShape(grid: seq<seq<string>>)
    ensures TableOf(grid).None? <==> |grid| == 0
    ensures TableOf(grid).Some? ==>
      var t := TableOf(grid).value;
      && t.TableBlock? && t.hasHeader && t.rowCount == |grid| && t.columnCount == |grid[0]|
      && t.positionHint.None? && ValidBlock(t)
      && (forall k :: 0 <= k < |grid| ==>
            |t.rows[k].cells| == |grid[k]| && (t.rows[k].isHeaderRow <==> k == 0))
      && (forall k, j :: 0 <= k < |grid| && 0 <= j < |grid[k]| ==>
            t.rows[k].cells[j].content == CleanTextSpec(grid[k][j], true)
            && (t.rows[k].cells[j].isHeader <==> k == 0))
  {
    HeaderTableShape(grid, DocxCell, None);
  }

  // ---------------------------------------------------------------- body

  /** One body element: a paragraph when the tag ends in "p", a table when it ends in "tbl", else nothing. */
  function BodyBlockOf(e: BodyElement, rels: seq<Rel>): Option<Block> {
    if EndsWith(e.tag, "p") then ParagraphOf(e.para, rels)
    else if EndsWith(e.tag, "tbl") then TableOf(e.table)
    else None
  }

  function BodyStep(rels: seq<Rel>): (BodyElement, nat) -> Option<Block> {
    (e: BodyElement, i: nat) => BodyBlockOf(e, rels)
  }

  /** The blocks of the body, in document order. */
  function BodyBlocks(f: DocxFile): seq<Block> {
    Collect(f.body, BodyStep(f.rels))
  }

  method ExtractBody(body: seq<BodyElement>, rels: seq<Rel>) returns (blocks: seq<Block>)
    ensures blocks == Collect(body, BodyStep(rels))
  {
    blocks := [];
    for i := 0 to |body|
      invariant blocks == Collect(body[..i], BodyStep(rels))
    {
      CollectSnoc(body, i, BodyStep(rels));
      var e := body[i];
      var b: Option<Block> := None;
      if EndsWith(e.tag, "p") {
        b := ExtractParagraph(e.para, rels);
      } else if EndsWith(e.tag, "tbl") {
        b := BuildHeaderTable(e.table, DocxCell, None);
      }
      if b.Some? {
        blocks := blocks + [b.value];
      }
    }
    assert body[..|body|] == body;
  }

  /** No body element yields an image, and every body block is valid. */
  lemma BodyBlockShape(e: BodyElement, rels: seq<Rel>)
    ensures BodyBlockOf(e, rels).Some? ==>
      !BodyBlockOf(e, rels).value.ImageBlock? && ValidBlock(BodyBlockOf(e, rels).value)
  {
    if EndsWith(e.tag, "p") {
      var p := e.para;
      ClassifyParagraphSpec(CleanTextSpec(p.text, true), StyleName(p), p.hasNumPr, p.runs, ParagraphLinks(p, rels));
    } else if EndsWith(e.tag, "tbl") {
      TableShape(e.table);
    }
  }

  // ---------------------------------------------------------------- images

  /** The format of an image relationship: the lower-cased text after the last '.' of its target. */
  function ImageFormat(targetRef: string): string {
    var pieces := SplitOn(targetRef, '.');
    Lower(pieces[|pieces| - 1])
  }

  /** A relationship whose type names an image and whose bytes can be read gives an image block with id `id`. */
  function ImageOf(rel: Rel, id: string): (r: Option<Block>)
    ensures r.Some? <==> Contains(rel.relType, "image") && rel.blob.Some?
    ensures r.Some? ==> (r.value.ImageBlock? && r.value.imageId == id
      && r.value.imageFormat == Some(ImageFormat(rel.targetRef))
      && r.value.imageData == Some(ImageToBase64(rel.blob.value, ImageFormat(rel.targetRef)))
      && r.value.positionHint.None? && r.value.width.None? && r.value.height.None?)
  {
    if Contains(rel.relType, "image") && rel.blob.Some? then
      var fmt := ImageFormat(rel.targetRef);
      Some(ImageBlock(AUTO, None, id, None, None, Some(ImageToBase64(rel.blob.value, fmt)), None, Some(fmt), None, None))
    else None
  }

  function ImageStep(ids: nat -> string): (Rel, nat) -> Option<Block> {
    (rel: Rel, i: nat) => ImageOf(rel, ids(i))
  }

  /** The image blocks, in relationship order; `ids(i)` is the identifier generated for relationship `i`. */
  function ImageBlocks(f: DocxFile, ids: nat -> string): seq<Block> {
    Collect(f.rels, ImageStep(ids))
  }

  /** `_extract_images`. */
  method ExtractImages(rels: seq<Rel>, ids: nat -> string) returns (blocks: seq<Block>)
    ensures blocks == Collect(rels, ImageStep(ids))
  {
    blocks := [];
    for i := 0 to |rels|
      invariant blocks == Collect(rels[..i], ImageStep(ids))
    {
      CollectSnoc(rels, i, ImageStep(ids));
      var rel := rels[i];
      assert ImageStep(ids)(rel, i) == ImageOf(rel, ids(i));
      if Contains(rel.relType, "image") && rel.blob.Some? {
        var fmt := ImageFormat(rel.targetRef);
        var data := ImageToBase64(rel.blob.value, fmt);
        blocks := blocks + [ImageBlock(AUTO, None, ids(i), None, None, Some(data), None, Some(fmt), None, None)];
      }
    }
    assert rels[..|rels|] == rels;
  }

  /** Every block the image step yields is an image block. */
  lemma ImagesAreImages(f: DocxFile, ids: nat -> string)
    ensures forall b :: b in ImageBlocks(f, ids) ==> b.ImageBlock?
  {
    forall b | b in ImageBlocks(f, ids) ensures b.ImageBlock? {
      CollectFrom(f.rels, ImageStep(ids), b);
      var i :| 0 <= i < |f.rels| && ImageStep(ids)(f.rels[i], i) == Some(b);
      assert ImageStep(ids)(f.rels[i], i) == ImageOf(f.rels[i], ids(i));
    }
  }

  // ---------------------------------------------------------------- document

  /** `extract`: one page holding the body blocks followed by the images. */
  function ExtractSpec(path: string, f: DocxFile, base: Metadata, ids: nat -> string): Document {
    var m := ExtractMetadata(f.core, base);
    var blocks := BodyBlocks(f) + ImageBlocks(f, ids);
    var dir := TextExtractor.DirectionOf(TextOfBlocks(blocks));
    Document(if Truthy(m.title) then m.title else Some(Stem(path)), m, [Page(1, None, blocks, dir)], dir)
  }

  method Extract(path: string, f: DocxFile, base: Metadata, ids: nat -> string) returns (d: Document)
    ensures d == ExtractSpec(path, f, base, ids)
  {
    var m := ExtractMetadata(f.core, base);
    var blocks := ExtractBody(f.body, f.rels);
    var images := ExtractImages(f.rels, ids);
    blocks := blocks + images;
    var r := DetectTextDirection(TextOfBlocks(blocks));
    var dir := if r == "rtl" then RTL else LTR;
    d := Document(if Truthy(m.title) then m.title else Some(Stem(path)), m, [Page(1, None, blocks, dir)], dir);
  }

  /**
   * The document has one page, numbered 1, whose blocks are the body blocks followed
   * by the image blocks: no body block is an image, so every image comes after every
   * block of the body.
   */
  lemma ImagesAfterBody(path: string, f: DocxFile, base: Metadata, ids: nat -> string)
    ensures var d := ExtractSpec(path, f, base, ids);
      && |d.pages| == 1 && d.pages[0].pageNumber == 1 && d.pages[0].direction == d.direction
      && d.pages[0].blocks == BodyBlocks(f) + ImageBlocks(f, ids)
      && (forall i, j :: 0 <= i < j < |d.pages[0].blocks| && d.pages[0].blocks[i].ImageBlock? ==>
            d.pages[0].blocks[j].ImageBlock?)
  {
    var body := BodyBlocks(f);
    var images := ImageBlocks(f, ids);
    var blocks := body + images;
    ImagesAreImages(f, ids);
    forall b | b in body ensures !b.ImageBlock? {
      CollectFrom(f.body, BodyStep(f.rels), b);
      var i :| 0 <= i < |f.body| && BodyStep(f.rels)(f.body[i], i) == Some(b);
      BodyBlockShape(f.body[i], f.rels);
    }
    forall i, j | 0 <= i < j < |blocks| && blocks[i].ImageBlock? ensures blocks[j].ImageBlock? {
      assert blocks[j] == images[j - |body|];
      assert images[j - |body|] in images;
    }
  }

  /** Every block of the extracted document satisfies the record constraints. */
  lemma ExtractValid(path: string, f: DocxFile, base: Metadata, ids: nat -> string)
    ensures ValidDocument(ExtractSpec(path, f, base, ids))
  {
    var body := BodyBlocks(f);
    var images := ImageBlocks(f, ids);
    ImagesAreImages(f, ids);
    forall b | b in body ensures ValidBlock(b) {
      CollectFrom(f.body, BodyStep(f.rels), b);
      var i :| 0 <= i < |f.body| && BodyStep(f.rels)(f.body[i], i) == Some(b);
      BodyBlockShape(f.body[i], f.rels);
    }
    assert forall b :: b in body + images ==> b in body || b in images;
  }

  /** The title is the core-properties title when set, else the file name when set, else the stem of the path. */
  lemma ExtractTitle(path: string, f: DocxFile, base: Metadata, ids: nat -> string)
    ensures ExtractSpec(path, f, base, ids).title ==
      if Truthy(f.core.title) then f.core.title
      else if Truthy(base.sourceFilename) then base.sourceFilename else Some(Stem(path))
  {
  }
}
