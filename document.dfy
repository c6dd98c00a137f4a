/**
 * The unified document model: a Document holds Pages, a Page holds Blocks, and a
 * Block is one of seven kinds. Field constraints of the records are the `Valid`
 * predicates; the document queries traverse pages in order, then blocks in order.
 */
module DocumentModel {
  import opened Wrappers
  import opened Seqs
  import opened Strings

  datatype TextDirection = LTR | RTL | AUTO

  /** A hyperlink, optionally placed at `[startIndex, endIndex)` of its parent text. */
  datatype Link = Link(text: string, url: string, startIndex: Option<int>, endIndex: Option<int>)

  /** A link placed by both offsets; a link missing either is unpositioned. */
  predicate Positioned(l: Link) {
    l.startIndex.Some? && l.endIndex.Some?
  }

  /** A point in time, kept as its ISO 8601 rendering. */
  datatype DateTime = DateTime(iso: string)

  datatype Metadata = Metadata(
    title: Option<string>,
    author: Option<string>,
    createdDate: Option<DateTime>,
    modifiedDate: Option<DateTime>,
    subject: Option<string>,
    keywords: seq<string>,
    language: Option<string>,
    pageCount: Option<int>,
    wordCount: Option<int>,
    sourceFormat: Option<string>,
    sourceFilename: Option<string>)

  const EmptyMetadata := Metadata(None, None, None, None, None, [], None, None, None, None, None)

  datatype BoundingBox = BoundingBox(x: real, y: real, width: real, height: real)

  datatype TextStyle = TextStyle(
    fontFamily: Option<string>,
    fontSize: real,
    fontWeight: string,
    fontStyle: string,
    color: Option<string>,
    backgroundColor: Option<string>,
    underline: bool,
    strikethrough: bool)

  const DefaultStyle := TextStyle(None, 12.0, "normal", "normal", None, None, false, false)

  datatype TableCell = TableCell(content: string, isHeader: bool, colspan: int, rowspan: int, links: seq<Link>)

  datatype TableRow = TableRow(cells: seq<TableCell>, isHeaderRow: bool)

  /** The seven block kinds; every kind carries a direction and an optional position hint. */
  datatype Block =
    | HeadingBlock(direction: TextDirection, positionHint: Option<string>,
                   level: int, text: string, links: seq<Link>)
    | ParagraphBlock(direction: TextDirection, positionHint: Option<string>,
                     text: string, links: seq<Link>, isBold: bool, isItalic: bool)
    | ImageBlock(direction: TextDirection, positionHint: Option<string>,
                 imageId: string, caption: Option<string>, altText: Option<string>,
                 imageData: Option<string>, imagePath: Option<string>, imageFormat: Option<string>,
                 width: Option<int>, height: Option<int>)
    | TableBlock(direction: TextDirection, positionHint: Option<string>,
                 rows: seq<TableRow>, caption: Option<string>, hasHeader: bool,
                 columnCount: int, rowCount: int)
    | ListBlock(direction: TextDirection, positionHint: Option<string>,
                items: seq<string>, isOrdered: bool, links: seq<Link>)
    | LinkBlock(direction: TextDirection, positionHint: Option<string>, text: string, url: string)
    | PositionedTextBlock(direction: TextDirection, positionHint: Option<string>,
                          text: string, bbox: BoundingBox, style: TextStyle,
                          confidence: real, language: Option<string>)

  datatype Page = Page(pageNumber: int, title: Option<string>, blocks: seq<Block>, direction: TextDirection)

  datatype Document = Document(title: Option<string>, metadata: Metadata, pages: seq<Page>, direction: TextDirection)

  /** Blocks built with the record defaults: direction AUTO, no position hint, no links. */
  function Heading(level: int, text: string, direction: TextDirection): Block {
    HeadingBlock(direction, None, level, text, [])
  }

  function Paragraph(text: string, links: seq<Link>, isBold: bool, isItalic: bool, direction: TextDirection): Block {
    ParagraphBlock(direction, None, text, links, isBold, isItalic)
  }

  function Cell(content: string, isHeader: bool): TableCell {
    TableCell(content, isHeader, 1, 1, [])
  }

  predicate ValidCell(c: TableCell) {
    c.colspan >= 1 && c.rowspan >= 1
  }

  predicate ValidBlock(b: Block) {
    match b
    case HeadingBlock(_, _, level, _, _) => 1 <= level <= 6
    case TableBlock(_, _, rows, _, _, columnCount, rowCount) =>
      columnCount >= 0 && rowCount >= 0
      && forall i, j :: 0 <= i < |rows| && 0 <= j < |rows[i].cells| ==> ValidCell(rows[i].cells[j])
    case PositionedTextBlock(_, _, _, _, _, confidence, _) => 0.0 <= confidence <= 1.0
    case _ => true
  }

  predicate ValidPage(p: Page) {
    p.pageNumber >= 1 && forall b :: b in p.blocks ==> ValidBlock(b)
  }

  predicate ValidDocument(d: Document) {
    forall p :: p in d.pages ==> ValidPage(p)
  }

  /** Every block of every page, pages in order and blocks in page order. */
  function AllBlocks(pages: seq<Page>): seq<Block> {
    FlatMap(pages, (p: Page) => p.blocks)
  }

  /** Each page's contribution under `f`, pages in order and blocks in order, as the nested loops build it. */
  function PerPage<U>(pages: seq<Page>, f: Block -> seq<U>): seq<U> {
    if |pages| == 0 then [] else FlatMap(pages[0].blocks, f) + PerPage(pages[1..], f)
  }

  /** The nested page/block traversal equals one traversal of the flattened block list. */
  lemma {:induction false} PerPageIsFlat<U>(pages: seq<Page>, f: Block -> seq<U>)
    ensures PerPage(pages, f) == FlatMap(AllBlocks(pages), f)
  {
    if |pages| > 0 {
      PerPageIsFlat(pages[1..], f);
      FlatMapAppend(pages[0].blocks, AllBlocks(pages[1..]), f);
    }
  }

  function CellContents(rows: seq<TableRow>): seq<string> {
    FlatMap(rows, (r: TableRow) => Map(r.cells, (c: TableCell) => c.content))
  }

  function CellLinks(rows: seq<TableRow>): seq<Link> {
    FlatMap(rows, (r: TableRow) => FlatMap(r.cells, (c: TableCell) => c.links))
  }

  /** The strings one block contributes to the document text. */
  function BlockTexts(b: Block): seq<string> {
    match b
    case HeadingBlock(_, _, _, text, _) => [text]
    case ParagraphBlock(_, _, text, _, _, _) => [text]
    case LinkBlock(_, _, text, _) => [text]
    case PositionedTextBlock(_, _, text, _, _, _, _) => [text]
    case ListBlock(_, _, items, _, _) => items
    case TableBlock(_, _, rows, _, _, _, _) => CellContents(rows)
    case ImageBlock(_, _, _, _, _, _, _, _, _, _) => []
  }

  /** The `text` field of the block kinds that have one (headings, paragraphs, links, positioned text). */
  function TextField(b: Block): seq<string> {
    if b.HeadingBlock? || b.ParagraphBlock? || b.LinkBlock? || b.PositionedTextBlock? then [b.text] else []
  }

  /** The text the direction of a list of blocks is detected on: their `text` fields joined by spaces. */
  function TextOfBlocks(blocks: seq<Block>): string {
    Join(FlatMap(blocks, TextField), " ")
  }

  /** The links one block contributes to the document's link list. */
  function BlockLinks(b: Block): seq<Link> {
    match b
    case HeadingBlock(_, _, _, _, links) => links
    case ParagraphBlock(_, _, _, links, _, _) => links
    case ListBlock(_, _, _, _, links) => links
    case LinkBlock(_, _, text, url) => [Link(text, url, None, None)]
    case TableBlock(_, _, rows, _, _, _, _) => CellLinks(rows)
    case _ => []
  }

  function OnlyImages(b: Block): seq<Block> {
    if b.ImageBlock? then [b] else []
  }

  function OnlyTables(b: Block): seq<Block> {
    if b.TableBlock? then [b] else []
  }

  /** The strings `get_all_text` joins with newlines. */
  function AllTextParts(pages: seq<Page>): seq<string> {
    PerPage(pages, BlockTexts)
  }

  /** `get_all_text`. */
  function GetAllText(d: Document): string {
    Join(AllTextParts(d.pages), "\n")
  }

  /** `get_all_links`. */
  function GetAllLinks(d: Document): seq<Link> {
    PerPage(d.pages, BlockLinks)
  }

  /** `get_all_images`. */
  function GetAllImages(d: Document): seq<Block> {
    PerPage(d.pages, OnlyImages)
  }

  /** `get_all_tables`. */
  function GetAllTables(d: Document): seq<Block> {
    PerPage(d.pages, OnlyTables)
  }

  lemma {:induction false} FlatMapSingletonsIsFilter(bs: seq<Block>, f: Block -> seq<Block>, p: Block -> bool)
    requires forall b :: f(b) == if p(b) then [b] else []
    ensures FlatMap(bs, f) == Filter(bs, p)
  {
    if |bs| > 0 {
      FlatMapSingletonsIsFilter(bs[1..], f, p);
    }
  }

  /** `get_all_images` returns exactly the image blocks, in page-then-block order. */
  lemma GetAllImagesSpec(d: Document)
    ensures GetAllImages(d) == Filter(AllBlocks(d.pages), (b: Block) => b.ImageBlock?)
    ensures forall b :: b in GetAllImages(d) <==> b in AllBlocks(d.pages) && b.ImageBlock?
  {
    PerPageIsFlat(d.pages, OnlyImages);
    FlatMapSingletonsIsFilter(AllBlocks(d.pages), OnlyImages, (b: Block) => b.ImageBlock?);
  }

  /** `get_all_tables` returns exactly the table blocks, in page-then-block order. */
  lemma GetAllTablesSpec(d: Document)
    ensures GetAllTables(d) == Filter(AllBlocks(d.pages), (b: Block) => b.TableBlock?)
    ensures forall b :: b in GetAllTables(d) <==> b in AllBlocks(d.pages) && b.TableBlock?
  {
    PerPageIsFlat(d.pages, OnlyTables);
    FlatMapSingletonsIsFilter(AllBlocks(d.pages), OnlyTables, (b: Block) => b.TableBlock?);
  }

  /**
   * `get_all_links` is the block-by-block concatenation of the links each block contributes;
   * in particular every link block yields an offset-less link with its text and url.
   */
  lemma GetAllLinksSpec(d: Document)
    ensures GetAllLinks(d) == FlatMap(AllBlocks(d.pages), BlockLinks)
    ensures forall b :: b in AllBlocks(d.pages) && b.LinkBlock? ==>
      Link(b.text, b.url, None, None) in GetAllLinks(d)
  {
    PerPageIsFlat(d.pages, BlockLinks);
    forall b | b in AllBlocks(d.pages) && b.LinkBlock?
      ensures Link(b.text, b.url, None, None) in GetAllLinks(d)
    {
      FlatMapContains(AllBlocks(d.pages), BlockLinks, b, Link(b.text, b.url, None, None));
    }
  }

  /** The document text is made of the texts of the blocks in order; image blocks add nothing. */
  lemma GetAllTextSpec(d: Document)
    ensures AllTextParts(d.pages) == FlatMap(AllBlocks(d.pages), BlockTexts)
    ensures AllTextParts(d.pages) == FlatMap(Filter(AllBlocks(d.pages), (b: Block) => !b.ImageBlock?), BlockTexts)
  {
    PerPageIsFlat(d.pages, BlockTexts);
    DropImagesKeepsTexts(AllBlocks(d.pages));
  }

  lemma {:induction false} DropImagesKeepsTexts(bs: seq<Block>)
    ensures FlatMap(bs, BlockTexts) == FlatMap(Filter(bs, (b: Block) => !b.ImageBlock?), BlockTexts)
  {
    if |bs| > 0 {
      DropImagesKeepsTexts(bs[1..]);
      var rest := Filter(bs[1..], (b: Block) => !b.ImageBlock?);
      if !bs[0].ImageBlock? {
        assert Filter(bs, (b: Block) => !b.ImageBlock?) == [bs[0]] + rest;
        assert ([bs[0]] + rest)[1..] == rest;
      } else {
        assert Filter(bs, (b: Block) => !b.ImageBlock?) == rest;
      }
    }
  }

  /** `add_page`: the page is appended after the existing ones. */
  function AddPage(d: Document, p: Page): (r: Document)
    ensures |r.pages| == |d.pages| + 1 && r.pages[|d.pages|] == p
    ensures r.pages[..|d.pages|] == d.pages
    ensures r.title == d.title && r.metadata == d.metadata && r.direction == d.direction
  {
    d.(pages := d.pages + [p])
  }

  /** Adding a valid page to a valid document keeps it valid. */
  lemma AddPageValid(d: Document, p: Page)
    requires ValidDocument(d) && ValidPage(p)
    ensures ValidDocument(AddPage(d, p))
  {
  }

  lemma {:induction false} PerPageSnoc<U>(pages: seq<Page>, p: Page, f: Block -> seq<U>)
    ensures PerPage(pages + [p], f) == PerPage(pages, f) + FlatMap(p.blocks, f)
  {
    if |pages| == 0 {
      assert pages + [p] == [p];
      assert [p][1..] == [];
    } else {
      assert (pages + [p])[1..] == pages[1..] + [p];
      PerPageSnoc(pages[1..], p, f);
    }
  }

  /** After `add_page`, the queries return what they returned before followed by the new page's share. */
  lemma AddPageQueries(d: Document, p: Page)
    ensures GetAllImages(AddPage(d, p)) == GetAllImages(d) + FlatMap(p.blocks, OnlyImages)
    ensures GetAllTables(AddPage(d, p)) == GetAllTables(d) + FlatMap(p.blocks, OnlyTables)
    ensures GetAllLinks(AddPage(d, p)) == GetAllLinks(d) + FlatMap(p.blocks, BlockLinks)
    ensures AllTextParts(AddPage(d, p).pages) == AllTextParts(d.pages) + FlatMap(p.blocks, BlockTexts)
  {
    PerPageSnoc(d.pages, p, OnlyImages);
    PerPageSnoc(d.pages, p, OnlyTables);
    PerPageSnoc(d.pages, p, BlockLinks);
    PerPageSnoc(d.pages, p, BlockTexts);
  }

  /** `get_page`: the first page carrying the number, if any. */
  function GetPage(pages: seq<Page>, n: int): (r: Option<Page>)
    ensures r.Some? ==> r.value in pages && r.value.pageNumber == n
    ensures r.Some? ==> exists i :: (0 <= i < |pages| && pages[i] == r.value
      && forall j :: 0 <= j < i ==> pages[j].pageNumber != n)
    ensures r.None? <==> forall p :: p in pages ==> p.pageNumber != n
  {
    if |pages| == 0 then None
    else if pages[0].pageNumber == n then Some(pages[0])
    else
      var r := GetPage(pages[1..], n);
      if r.Some? then
        var i :| (0 <= i < |pages[1..]| && pages[1..][i] == r.value
          && forall j :: 0 <= j < i ==> pages[1..][j].pageNumber != n);
        assert pages[i + 1] == r.value;
        r
      else r
  }

  /** Adding a page never changes which page an existing number finds. */
  lemma AddPageGetPage(d: Document, p: Page, n: int)
    ensures GetPage(AddPage(d, p).pages, n) ==
      if GetPage(d.pages, n).Some? then GetPage(d.pages, n)
      else if p.pageNumber == n then Some(p) else None
  {
    GetPageSnoc(d.pages, p, n);
  }

  lemma {:induction false} GetPageSnoc(pages: seq<Page>, p: Page, n: int)
    ensures GetPage(pages + [p], n) ==
      if GetPage(pages, n).Some? then GetPage(pages, n)
      else if p.pageNumber == n then Some(p) else None
  {
    if |pages| == 0 {
      assert pages + [p] == [p];
    } else {
      assert (pages + [p])[0] == pages[0];
      assert (pages + [p])[1..] == pages[1..] + [p];
      GetPageSnoc(pages[1..], p, n);
    }
  }

  /** Number of blocks over all pages. */
  function TotalBlocks(pages: seq<Page>): (n: nat)
    ensures n == |AllBlocks(pages)|
  {
    if |pages| == 0 then 0
    else
      assert AllBlocks(pages) == pages[0].blocks + AllBlocks(pages[1..]);
      |pages[0].blocks| + TotalBlocks(pages[1..])
  }
}
