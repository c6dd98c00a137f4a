/**
 * The Excel extractor over an abstract view of an openpyxl workbook: the sheets in
 * order, each with its name, its reported dimensions and its rows of optional cell
 * values (already converted to text). Each sheet becomes one page holding a level-2
 * heading with the sheet name and, when some row has a value, a table of the rows that
 * have one, among at most the first 1000.
 */
module XlsxExtractor {
  import opened Wrappers
  import opened Strings
  import opened Seqs
  import opened Paths
  import opened DocumentModel
  import opened TextUtils
  import opened BaseExtractor
  import opened Tables
  import TextExtractor

  const SupportedExtensions: seq<string> := [".xlsx", ".xlsm"]

  /** The number of source rows the table reader looks at. */
  const MaxRows := 1000

  /** A cell value: None for an empty cell, otherwise `str(value)`. */
  type CellValue = Option<string>

  /**
   * A worksheet: its name, its `max_row` and `max_column` (None when unknown) and its
   * rows from the first, each holding one value per column.
   */
  datatype Sheet = Sheet(name: string, maxRow: Option<nat>, maxColumn: Option<nat>, rows: seq<seq<CellValue>>)

  /**
   * The grid openpyxl reports for a sheet with known dimensions: `max_row` rows of
   * `max_column` values each.
   */
  predicate SheetGrid(s: Sheet) {
    s.maxRow.Some? && s.maxColumn.Some? ==>
      |s.rows| == s.maxRow.value && forall k :: 0 <= k < |s.rows| ==> |s.rows[k]| == s.maxColumn.value
  }

  /** The workbook: its document properties (the creator as author) and its sheets in order. */
  datatype Workbook = Workbook(props: CoreProps, sheets: seq<Sheet>)

  // ---------------------------------------------------------------- metadata

  /** `_extract_metadata`: the page count is filled in by `extract`. */
  function ExtractMetadata(props: CoreProps, base: Metadata): (m: Metadata)
    ensures m.title == (if Truthy(props.title) then props.title else base.sourceFilename)
    ensures m.author == props.author && m.subject == props.subject && m.createdDate == props.created
    ensures m.modifiedDate == (if props.modified.Some? then props.modified else base.modifiedDate)
    ensures m.keywords == ParseKeywords(props.keywords)
    ensures m.pageCount.None? && m.wordCount.None? && m.language.None?
    ensures m.sourceFormat == Some("xlsx") && m.sourceFilename == base.sourceFilename
  {
    Metadata(if Truthy(props.title) then props.title else base.sourceFilename, props.author, props.created,
             if props.modified.Some? then props.modified else base.modifiedDate,
             props.subject, ParseKeywords(props.keywords), None, None, None, Some("xlsx"), base.sourceFilename)
  }

  // ---------------------------------------------------------------- rows

  function SheetHint(sheetNo: nat): string {
    "sheet_" + NatToString(sheetNo)
  }

  /** One cell: the cleaned text of a value, "" for an empty cell. */
  function XlsxCell(v: CellValue, isHeader: bool): TableCell {
    Cell(if v.Some? then CleanTextSpec(v.value, true) else "", isHeader)
  }

  /** A row has content when some cell holds a value, even one that cleans to "". */
  predicate HasContent(row: seq<CellValue>) {
    exists k :: 0 <= k < |row| && row[k].Some?
  }

  /** Source row `i`: kept when it has content, a header row exactly when it is source row 0. */
  function RowAt(row: seq<CellValue>, i: nat): Option<TableRow> {
    if HasContent(row) then Some(RowOf(row, i, XlsxCell)) else None
  }

  function RowStep(): (seq<CellValue>, nat) -> Option<TableRow> {
    (row: seq<CellValue>, i: nat) => RowAt(row, i)
  }

  /** The rows the reader looks at: the first `MaxRows` at most. */
  function ExaminedRows(s: Sheet): (r: seq<seq<CellValue>>)
    ensures |r| <= MaxRows && |r| <= |s.rows| && r == s.rows[..|r|]
    ensures |s.rows| <= MaxRows ==> r == s.rows
  {
    if |s.rows| <= MaxRows then s.rows else s.rows[..MaxRows]
  }

  /**
   * On a grid of the reported dimensions, the reader looks at `min(max_row, 1000)` rows,
   * the range `iter_rows(min_row=1, max_row=min(sheet.max_row, 1000))` walks.
   */
  lemma ExaminedRowsOfGrid(s: Sheet)
    requires SheetGrid(s) && s.maxRow.Some? && s.maxColumn.Some?
    ensures |ExaminedRows(s)| == if s.maxRow.value <= MaxRows then s.maxRow.value else MaxRows
    ensures forall k :: 0 <= k < |ExaminedRows(s)| ==> |ExaminedRows(s)[k]| == s.maxColumn.value
  {
  }

  /** The kept rows of a sheet, in source order. */
  function KeptRows(s: Sheet): seq<TableRow> {
    Collect(ExaminedRows(s), RowStep())
  }

  /** One row of the reading loop: its cells, made by `cell`, and whether some cell holds a value. */
  method ScanRow(row: seq<CellValue>, cell: CellValue -> TableCell) returns (cells: seq<TableCell>, hasContent: bool)
    ensures cells == Map(row, cell)
    ensures hasContent == HasContent(row)
  {
    cells := [];
    hasContent := false;
    for j := 0 to |row|
      invariant cells == Map(row[..j], cell)
      invariant hasContent == HasContent(row[..j])
    {
      MapSnoc([], row, j, cell);
      HasContentSnoc(row, j);
      if row[j].Some? {
        hasContent := true;
      }
      cells := cells + [cell(row[j])];
    }
    assert row[..|row|] == row;
  }

  lemma HasContentSnoc(row: seq<CellValue>, j: nat)
    requires j < |row|
    ensures HasContent(row[..j + 1]) == (HasContent(row[..j]) || row[j].Some?)
  {
    if row[j].Some? {
      assert row[..j + 1][j] == row[j];
    }
    if HasContent(row[..j]) {
      var k :| 0 <= k < j && row[..j][k].Some?;
      assert row[..j + 1][k] == row[..j][k];
    }
  }

  // ---------------------------------------------------------------- table

  /** `_extract_table`. */
  function TableOf(s: Sheet, sheetNo: nat): Option<Block> {
    if s.maxRow.None? || s.maxColumn.None? || s.maxRow == Some(0) || s.maxColumn == Some(0) then None
    else
      var rows := KeptRows(s);
      if |rows| == 0 then None
      else Some(TableBlock(AUTO, Some(SheetHint(sheetNo)), rows, None, true, |rows[0].cells|, |rows|))
  }

  method ExtractTable(s: Sheet, sheetNo: nat) returns (t: Option<Block>)
    ensures t == TableOf(s, sheetNo)
  {
    if s.maxRow.None? || s.maxColumn.None? {
      return None;
    }
    if s.maxRow.value == 0 || s.maxColumn.value == 0 {
      return None;
    }
    var source := ExaminedRows(s);
    var rows: seq<TableRow> := [];
    for i := 0 to |source|
      invariant rows == Collect(source[..i], RowStep())
    {
      CollectSnoc(source, i, RowStep());
      var cells, hasContent := ScanRow(source[i], CellsWith(XlsxCell, i == 0));
      RowStepAt(source[i], i, cells, hasContent);
      if hasContent {
        rows := rows + [TableRow(cells, i == 0)];
      }
    }
    assert source[..|source|] == source;
    if |rows| == 0 {
      return None;
    }
    t := Some(TableBlock(AUTO, Some(SheetHint(sheetNo)), rows, None, true, |rows[0].cells|, |rows|));
  }

  /** What one pass of the reading loop contributes for source row `i`. */
  lemma RowStepAt(row: seq<CellValue>, i: nat, cells: seq<TableCell>, hasContent: bool)
    requires cells == Map(row, CellsWith(XlsxCell, i == 0)) && hasContent == HasContent(row)
    ensures RowStep()(row, i) == if hasContent then Some(TableRow(cells, i == 0)) else None
  {
  }

  /**
   * The kept rows are exactly the examined source rows with content, in order: each kept
   * row is built from such a row and is a header row exactly when that row is source
   * row 0, and every examined row with content yields one.
   */
  lemma KeptRowsSpec(s: Sheet)
    ensures forall r :: r in KeptRows(s) ==>
      exists i :: 0 <= i < |ExaminedRows(s)| && HasContent(ExaminedRows(s)[i])
        && r == RowOf(ExaminedRows(s)[i], i, XlsxCell) && (r.isHeaderRow <==> i == 0)
    ensures forall i :: 0 <= i < |ExaminedRows(s)| && HasContent(ExaminedRows(s)[i]) ==>
      RowOf(ExaminedRows(s)[i], i, XlsxCell) in KeptRows(s)
    ensures |KeptRows(s)| == 0 <==> forall i :: 0 <= i < |ExaminedRows(s)| ==> !HasContent(ExaminedRows(s)[i])
  {
    var src := ExaminedRows(s);
    forall r | r in KeptRows(s)
      ensures exists i :: 0 <= i < |src| && HasContent(src[i]) && r == RowOf(src[i], i, XlsxCell) && (r.isHeaderRow <==> i == 0)
    {
      CollectFrom(src, RowStep(), r);
      var i :| 0 <= i < |src| && RowStep()(src[i], i) == Some(r);
      assert RowStep()(src[i], i) == RowAt(src[i], i);
    }
    forall i | 0 <= i < |src| && HasContent(src[i]) ensures RowOf(src[i], i, XlsxCell) in KeptRows(s) {
      assert RowStep()(src[i], i) == RowAt(src[i], i);
      CollectTo(src, RowStep(), i);
    }
    if |KeptRows(s)| > 0 {
      assert KeptRows(s)[0] in KeptRows(s);
    }
  }

  /**
   * When source row 0 has no value, no kept row is a header row, although the table
   * still claims a header.
   */
  lemma NoHeaderWithoutRowZero(s: Sheet)
    requires |s.rows| > 0 && !HasContent(s.rows[0])
    ensures forall r :: r in KeptRows(s) ==> !r.isHeaderRow
  {
    KeptRowsSpec(s);
  }

  /** Rows after the first `MaxRows` never matter. */
  lemma RowCap(s: Sheet, sheetNo: nat)
    requires |s.rows| > MaxRows
    ensures TableOf(s, sheetNo) == TableOf(s.(rows := s.rows[..MaxRows]), sheetNo)
    ensures TableOf(s, sheetNo).Some? ==> TableOf(s, sheetNo).value.rowCount <= MaxRows
  {
    assert ExaminedRows(s) == ExaminedRows(s.(rows := s.rows[..MaxRows]));
  }

  /**
   * No table when a dimension is unknown or zero or when no examined row has a value;
   * otherwise a valid table with a header flag, the sheet's hint, the kept rows, as many
   * columns as the first kept row and as many rows as were kept.
   */
  lemma TableShape(s: Sheet, sheetNo: nat)
    ensures TableOf(s, sheetNo).None? <==>
      s.maxRow.None? || s.maxColumn.None? || s.maxRow == Some(0) || s.maxColumn == Some(0)
      || forall i :: 0 <= i < |ExaminedRows(s)| ==> !HasContent(ExaminedRows(s)[i])
    ensures TableOf(s, sheetNo).Some? ==>
      var t := TableOf(s, sheetNo).value;
      && t.TableBlock? && t.hasHeader && t.rows == KeptRows(s) && t.rowCount == |t.rows|
      && t.columnCount == |t.rows[0].cells| && t.positionHint == Some(SheetHint(sheetNo)) && ValidBlock(t)
  {
    KeptRowsSpec(s);
    KeptRowsValid(s);
    var rows := KeptRows(s);
    forall k | 0 <= k < |rows| ensures forall j :: 0 <= j < |rows[k].cells| ==> ValidCell(rows[k].cells[j]) {
      assert rows[k] in rows;
    }
  }

  /** Every cell of a kept row is valid. */
  lemma KeptRowsValid(s: Sheet)
    ensures forall r :: r in KeptRows(s) ==> forall j :: 0 <= j < |r.cells| ==> ValidCell(r.cells[j])
  {
    var src := ExaminedRows(s);
    forall r | r in KeptRows(s) ensures forall j :: 0 <= j < |r.cells| ==> ValidCell(r.cells[j]) {
      CollectFrom(src, RowStep(), r);
      var i :| 0 <= i < |src| && RowStep()(src[i], i) == Some(r);
      assert RowStep()(src[i], i) == RowAt(src[i], i);
      RowOfShape(src[i], i, XlsxCell);
    }
  }

  // ---------------------------------------------------------------- sheets

  /** The text the direction of a table is detected on: its cell contents, row by row, joined by spaces. */
  function TableText(b: Block): string {
    if b.TableBlock? then Join(CellContents(b.rows), " ") else ""
  }

  /** `_extract_sheet`: the sheet-name heading, then the table when there is one. */
  function SheetOf(s: Sheet, sheetNo: nat): Page {
    var heading := HeadingBlock(TextExtractor.DirectionOf(s.name), Some(SheetHint(sheetNo)), 2, s.name, []);
    var table := TableOf(s, sheetNo);
    var text := if table.Some? then s.name + " " + TableText(table.value) else s.name;
    Page(sheetNo, Some(s.name), [heading] + (if table.Some? then [table.value] else []),
         TextExtractor.DirectionOf(text))
  }

  method ExtractSheet(s: Sheet, sheetNo: nat) returns (p: Page)
    ensures p == SheetOf(s, sheetNo)
  {
    var d := DetectTextDirection(s.name);
    var blocks := [HeadingBlock(if d == "rtl" then RTL else LTR, Some(SheetHint(sheetNo)), 2, s.name, [])];
    var table := ExtractTable(s, sheetNo);
    if table.Some? {
      blocks := blocks + [table.value];
    }
    var text := s.name;
    if table.Some? {
      text := text + " " + Join(CellContents(table.value.rows), " ");
    }
    var dir := DetectTextDirection(text);
    p := Page(sheetNo, Some(s.name), blocks, if dir == "rtl" then RTL else LTR);
  }

  /**
   * A sheet page is numbered as given, is titled with the sheet name, starts with a
   * level-2 heading holding the sheet name, and holds the sheet's table, if any, after it.
   */
  lemma SheetShape(s: Sheet, sheetNo: nat)
    ensures var p := SheetOf(s, sheetNo);
      && p.pageNumber == sheetNo && p.title == Some(s.name)
      && 1 <= |p.blocks| <= 2 && p.blocks[0].HeadingBlock? && p.blocks[0].level == 2
      && p.blocks[0].text == s.name && p.blocks[0].positionHint == Some(SheetHint(sheetNo))
      && (|p.blocks| == 2 <==> TableOf(s, sheetNo).Some?)
      && (|p.blocks| == 2 ==> p.blocks[1] == TableOf(s, sheetNo).value)
  {
  }

  lemma SheetValid(s: Sheet, sheetNo: nat)
    requires sheetNo >= 1
    ensures ValidPage(SheetOf(s, sheetNo))
  {
    TableShape(s, sheetNo);
  }

  // ---------------------------------------------------------------- document

  /** The text one block adds to the document text: a heading's text or a table's cell contents. */
  function BlockText(b: Block): string {
    if b.TableBlock? then TableText(b) else if TextField(b) != [] then b.text else ""
  }

  function SheetStep(): (Sheet, nat) -> Page {
    (s: Sheet, i: nat) => SheetOf(s, i + 1)
  }

  lemma SheetStepAt(s: Sheet, i: nat)
    ensures SheetStep()(s, i) == SheetOf(s, i + 1)
  {
  }

  /** `extract`: sheet k is page k; the metadata counts the pages; the title falls back to the stem. */
  function ExtractSpec(path: string, wb: Workbook, base: Metadata): Document {
    var pages := MapIndexed(wb.sheets, SheetStep());
    var m := ExtractMetadata(wb.props, base).(pageCount := Some(|pages|));
    Document(if Truthy(m.title) then m.title else Some(Stem(path)), m, pages,
             TextExtractor.DirectionOf(Join(Map(AllBlocks(pages), BlockText), " ")))
  }

  /** The sheet loop of `extract`. */
  method ExtractSheets(sheets: seq<Sheet>) returns (pages: seq<Page>)
    ensures pages == MapIndexed(sheets, SheetStep())
  {
    pages := [];
    for i := 0 to |sheets|
      invariant pages == MapIndexed(sheets[..i], SheetStep())
    {
      MapIndexedSnoc(sheets, i, SheetStep());
      SheetStepAt(sheets[i], i);
      var p := ExtractSheet(sheets[i], i + 1);
      pages := pages + [p];
    }
    assert sheets[..|sheets|] == sheets;
  }

  method Extract(path: string, wb: Workbook, base: Metadata) returns (d: Document)
    ensures d == ExtractSpec(path, wb, base)
  {
    var m := ExtractMetadata(wb.props, base);
    var pages := ExtractSheets(wb.sheets);
    var dir := DetectTextDirection(Join(Map(AllBlocks(pages), BlockText), " "));
    m := m.(pageCount := Some(|pages|));
    d := Document(if Truthy(m.title) then m.title else Some(Stem(path)), m, pages, if dir == "rtl" then RTL else LTR);
  }

  lemma PageAt(sheets: seq<Sheet>, k: nat)
    requires k < |sheets|
    ensures MapIndexed(sheets, SheetStep())[k] == SheetOf(sheets[k], k + 1)
  {
    MapIndexedAt(sheets, SheetStep(), k);
    SheetStepAt(sheets[k], k);
  }

  /**
   * One page per sheet, in order: sheet k (from 1) is page k, titled with the sheet
   * name; the page count is the number of sheets.
   */
  lemma ExtractPages(path: string, wb: Workbook, base: Metadata)
    ensures var d := ExtractSpec(path, wb, base);
      && |d.pages| == |wb.sheets| && d.metadata.pageCount == Some(|wb.sheets|)
      && (forall k :: 0 <= k < |d.pages| ==>
            d.pages[k] == SheetOf(wb.sheets[k], k + 1) && d.pages[k].pageNumber == k + 1
            && d.pages[k].title == Some(wb.sheets[k].name))
  {
    var pages := MapIndexed(wb.sheets, SheetStep());
    forall k | 0 <= k < |pages|
      ensures pages[k] == SheetOf(wb.sheets[k], k + 1) && pages[k].pageNumber == k + 1
        && pages[k].title == Some(wb.sheets[k].name)
    {
      PageAt(wb.sheets, k);
      SheetShape(wb.sheets[k], k + 1);
    }
  }

  /** Every page of the extracted document satisfies the record constraints. */
  lemma ExtractValid(path: string, wb: Workbook, base: Metadata)
    ensures ValidDocument(ExtractSpec(path, wb, base))
  {
    SheetPagesValid(wb.sheets);
    PagesValid(ExtractSpec(path, wb, base), MapIndexed(wb.sheets, SheetStep()));
  }

  lemma SheetPagesValid(sheets: seq<Sheet>)
    ensures forall k :: 0 <= k < |sheets| ==> ValidPage(MapIndexed(sheets, SheetStep())[k])
  {
    forall k | 0 <= k < |sheets| ensures ValidPage(MapIndexed(sheets, SheetStep())[k]) {
      PageAt(sheets, k);
      SheetValid(sheets[k], k + 1);
    }
  }

  lemma PagesValid(d: Document, pages: seq<Page>)
    requires d.pages == pages
    requires forall k :: 0 <= k < |pages| ==> ValidPage(pages[k])
    ensures ValidDocument(d)
  {
  }
}
