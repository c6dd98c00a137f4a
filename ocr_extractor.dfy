/**
 * The OCR extractor for images and scanned PDFs. The image work (OpenCV filters, the
 * Tesseract calls) is outside this model: an image is given as what the extractor reads
 * from it, namely Tesseract's word records, its full-page text and the candidate table
 * regions found by contour detection. A region is given by its size, its row projection
 * (the sum of each pixel row of the horizontal-line mask) and the text Tesseract reads
 * from a horizontal band of it. The extractor turns the records into positioned text
 * blocks, the regions into tables, and one image into one page.
 */
module OcrExtractor {
  import opened Wrappers
  import opened Strings
  import opened Seqs
  import opened Paths
  import opened DocumentModel
  import opened TextUtils
  import opened Tables
  import TextExtractor

  const SupportedExtensions: seq<string> := [".png", ".jpg", ".jpeg", ".tiff", ".tif", ".bmp", ".gif", ".webp"]

  /** A projection value counts as a line when it exceeds the region width times 128. */
  const LineFactor: nat := 128

  // ---------------------------------------------------------------- row boundaries

  /** The variables of the projection scan: the boundaries so far, whether a line is open and where it began. */
  datatype ScanState = ScanState(bounds: seq<nat>, inLine: bool, lineStart: nat)

  /** One step of the scan at row `i` holding projection value `v`. */
  function ScanStep(st: ScanState, v: nat, i: nat, threshold: nat): ScanState {
    if v > threshold then (if st.inLine then st else st.(inLine := true, lineStart := i))
    else if st.inLine then ScanState(st.bounds + [(st.lineStart + i) / 2], false, st.lineStart)
    else st
  }

  /** The scan state after the first `n` rows. */
  function Scan(projection: seq<nat>, threshold: nat, n: nat): ScanState
    requires n <= |projection|
  {
    if n == 0 then ScanState([], false, 0)
    else ScanStep(Scan(projection, threshold, n - 1), projection[n - 1], n - 1, threshold)
  }

  /** The row boundaries of a region `width` pixels wide. */
  function RowBoundaries(projection: seq<nat>, width: nat): seq<nat> {
    Scan(projection, width * LineFactor, |projection|).bounds
  }

  /** The projection scan of `_ocr_table_region`. */
  method FindRowBoundaries(projection: seq<nat>, width: nat) returns (bounds: seq<nat>)
    ensures bounds == RowBoundaries(projection, width)
  {
    bounds := [];
    var inLine := false;
    var lineStart := 0;
    for i := 0 to |projection|
      invariant ScanState(bounds, inLine, lineStart) == Scan(projection, width * LineFactor, i)
    {
      if projection[i] > width * LineFactor {
        if !inLine {
          inLine := true;
          lineStart := i;
        }
      } else if inLine {
        bounds := bounds + [(lineStart + i) / 2];
        inLine := false;
      }
    }
  }

  /** Rows `s` to `e - 1` all exceed the threshold, and row `s - 1` (if any) does not. */
  ghost predicate RunFrom(projection: seq<nat>, threshold: nat, s: nat, e: nat)
    requires e <= |projection|
  {
    s < e && (s == 0 || projection[s - 1] <= threshold) && forall j :: s <= j < e ==> projection[j] > threshold
  }

  /** A maximal run of rows above the threshold, `s` to `e - 1`, closed by row `e` at or below it. */
  ghost predicate ClosedRun(projection: seq<nat>, threshold: nat, s: nat, e: nat) {
    e < |projection| && RunFrom(projection, threshold, s, e) && projection[e] <= threshold
  }

  /** The number of rows among the first `n` that close a run: at or below the threshold after one above it. */
  function Falls(projection: seq<nat>, threshold: nat, n: nat): nat
    requires n <= |projection|
  {
    if n == 0 then 0
    else Falls(projection, threshold, n - 1)
         + (if n >= 2 && projection[n - 2] > threshold && projection[n - 1] <= threshold then 1 else 0)
  }

  /**
   * What the scan variables mean after `n` rows: a line is open exactly when row n-1 is
   * above the threshold, and then it began where the current run began; the boundaries
   * are strictly increasing, lie before row n (and before the open line), and there is
   * one per run closed so far.
   */
  lemma {:induction false} ScanShape(projection: seq<nat>, threshold: nat, n: nat)
    requires n <= |projection|
    ensures var st := Scan(projection, threshold, n);
      && (st.inLine <==> n > 0 && projection[n - 1] > threshold)
      && (st.inLine ==> st.lineStart < n && RunFrom(projection, threshold, st.lineStart, n))
      && (forall k :: 0 <= k < |st.bounds| ==> st.bounds[k] < n && (st.inLine ==> st.bounds[k] < st.lineStart))
      && (forall k, l :: 0 <= k < l < |st.bounds| ==> st.bounds[k] < st.bounds[l])
      && |st.bounds| == Falls(projection, threshold, n)
  {
    if n > 0 {
      ScanShape(projection, threshold, n - 1);
    }
  }

  /** Every boundary is the floor-midpoint of a run closed within the first `n` rows. */
  lemma {:induction false} ScanSound(projection: seq<nat>, threshold: nat, n: nat)
    requires n <= |projection|
    ensures forall b :: b in Scan(projection, threshold, n).bounds ==>
      exists s: nat, e: nat :: e < n && ClosedRun(projection, threshold, s, e) && b == (s + e) / 2
  {
    if n > 0 {
      ScanSound(projection, threshold, n - 1);
      ScanShape(projection, threshold, n - 1);
      var st := Scan(projection, threshold, n - 1);
      if projection[n - 1] <= threshold && st.inLine {
        assert ClosedRun(projection, threshold, st.lineStart, n - 1);
      }
    }
  }

  /** The floor-midpoint of every run closed within the first `n` rows is a boundary. */
  lemma {:induction false} ScanComplete(projection: seq<nat>, threshold: nat, n: nat)
    requires n <= |projection|
    ensures forall s: nat, e: nat :: e < n && ClosedRun(projection, threshold, s, e) ==>
      (s + e) / 2 in Scan(projection, threshold, n).bounds
  {
    if n > 0 {
      ScanComplete(projection, threshold, n - 1);
      ScanShape(projection, threshold, n - 1);
      var st := Scan(projection, threshold, n - 1);
      forall s: nat, e: nat | e < n && ClosedRun(projection, threshold, s, e)
        ensures (s + e) / 2 in Scan(projection, threshold, n).bounds
      {
        if e == n - 1 {
          SameRunStart(projection, threshold, s, st.lineStart, e);
        }
      }
    }
  }

  /** Two runs reaching the same row began at the same row. */
  lemma SameRunStart(projection: seq<nat>, threshold: nat, s: nat, t: nat, e: nat)
    requires e <= |projection| && RunFrom(projection, threshold, s, e) && RunFrom(projection, threshold, t, e)
    ensures s == t
  {
  }

  /**
   * The row boundaries are strictly increasing, one per closed run, and they are exactly
   * the floor-midpoints of the closed runs; a run still open at the last row adds none.
   */
  lemma RowBoundariesSpec(projection: seq<nat>, width: nat)
    ensures var bounds := RowBoundaries(projection, width);
      && (forall k, l :: 0 <= k < l < |bounds| ==> bounds[k] < bounds[l])
      && |bounds| == Falls(projection, width * LineFactor, |projection|)
      && forall b :: b in bounds <==>
           exists s: nat, e: nat :: ClosedRun(projection, width * LineFactor, s, e) && b == (s + e) / 2
  {
    ScanShape(projection, width * LineFactor, |projection|);
    ScanSound(projection, width * LineFactor, |projection|);
    ScanComplete(projection, width * LineFactor, |projection|);
  }

  /** The scan of the first `n` rows does not depend on the rows after them. */
  lemma {:induction false} ScanPrefix(projection: seq<nat>, more: seq<nat>, threshold: nat, n: nat)
    requires n <= |projection|
    ensures Scan(projection + more, threshold, n) == Scan(projection, threshold, n)
  {
    if n > 0 {
      ScanPrefix(projection, more, threshold, n - 1);
      assert (projection + more)[n - 1] == projection[n - 1];
    }
  }

  /** Extending the projection by a row above the threshold adds no boundary. */
  lemma OpenRunAddsNothing(projection: seq<nat>, width: nat, v: nat)
    requires v > width * LineFactor
    ensures RowBoundaries(projection + [v], width) == RowBoundaries(projection, width)
  {
    ScanPrefix(projection, [v], width * LineFactor, |projection|);
  }

  // ---------------------------------------------------------------- table regions

  /**
   * A candidate table region: its bounding size, the row projection of its horizontal-line
   * mask, and the text Tesseract reads from the band of pixel rows `y1` to `y2 - 1`.
   */
  datatype Region = Region(width: nat, height: nat, projection: seq<nat>, readBand: (nat, nat) -> string)

  /** The band edges: the boundaries, or the top, middle and bottom rows when there is none. */
  function BandEdges(bounds: seq<nat>, height: nat): seq<nat> {
    if |bounds| == 0 then [0, height / 2, height] else bounds
  }

  /** The raw text of each band between consecutive edges, top to bottom. */
  function BandTexts(edges: seq<nat>, readBand: (nat, nat) -> string): (texts: seq<string>)
    ensures |texts| == if |edges| == 0 then 0 else |edges| - 1
    ensures forall i :: 0 <= i < |texts| ==> texts[i] == readBand(edges[i], edges[i + 1])
  {
    if |edges| <= 1 then [] else seq(|edges| - 1, i requires 0 <= i < |edges| - 1 => readBand(edges[i], edges[i + 1]))
  }

  /** The cell texts of a band: its pieces between tab characters, or the whole text when it has none. */
  function BandCells(t: string): seq<string> {
    if '\t' in t then SplitOn(t, '\t') else [t]
  }

  /** The tab test is redundant: splitting a text without a tab gives the text itself. */
  lemma BandCellsIsSplit(t: string)
    ensures BandCells(t) == SplitOn(t, '\t')
  {
    if '\t' !in t {
      JoinSplitOn(t, '\t');
    }
  }

  function OcrCell(c: string, isHeader: bool): TableCell {
    Cell(CleanTextSpec(c, true), isHeader)
  }

  /** Band `i`: a row when its stripped text is not empty, a header row exactly when it is band 0. */
  function BandRow(text: string, i: nat): Option<TableRow> {
    var t := Strip(text);
    if t == "" then None else Some(RowOf(BandCells(t), i, OcrCell))
  }

  function BandStep(): (string, nat) -> Option<TableRow> {
    (text: string, i: nat) => BandRow(text, i)
  }

  /** The band texts of a region. */
  function RegionTexts(r: Region): seq<string> {
    BandTexts(BandEdges(RowBoundaries(r.projection, r.width), r.height), r.readBand)
  }

  /** The kept rows of a region, top to bottom. */
  function RegionRows(r: Region): seq<TableRow> {
    Collect(RegionTexts(r), BandStep())
  }

  function RowWidth(row: TableRow): nat {
    |row.cells|
  }

  /** `_ocr_table_region`: None when no band has text. */
  function RegionTable(r: Region): Option<Block> {
    var rows := RegionRows(r);
    if |rows| == 0 then None
    else Some(TableBlock(AUTO, None, rows, None, true, Max(Map(rows, RowWidth)), |rows|))
  }

  /** What one pass of the band loop contributes for band `i`. */
  lemma BandStepAt(text: string, i: nat, cells: seq<TableCell>)
    requires Strip(text) != "" && cells == Map(BandCells(Strip(text)), CellsWith(OcrCell, i == 0))
    ensures BandStep()(text, i) == Some(TableRow(cells, i == 0))
  {
  }

  /** The band loop of `_ocr_table_region`. */
  method ReadBands(edges: seq<nat>, readBand: (nat, nat) -> string) returns (rows: seq<TableRow>)
    ensures rows == Collect(BandTexts(edges, readBand), BandStep())
  {
    ghost var texts := BandTexts(edges, readBand);
    rows := [];
    if |edges| <= 1 {
      return;
    }
    for i := 0 to |edges| - 1
      invariant rows == Collect(texts[..i], BandStep())
    {
      CollectSnoc(texts, i, BandStep());
      var text := Strip(readBand(edges[i], edges[i + 1]));
      if text != "" {
        var cells := BuildCells(BandCells(text), CellsWith(OcrCell, i == 0));
        BandStepAt(texts[i], i, cells);
        rows := rows + [TableRow(cells, i == 0)];
      }
    }
    assert texts[..|texts|] == texts;
  }

  method OcrTableRegion(r: Region) returns (t: Option<Block>)
    ensures t == RegionTable(r)
  {
    var bounds := FindRowBoundaries(r.projection, r.width);
    if |bounds| == 0 {
      bounds := [0, r.height / 2, r.height];
    }
    var rows := ReadBands(bounds, r.readBand);
    if |rows| == 0 {
      return None;
    }
    t := Some(TableBlock(AUTO, None, rows, None, true, Max(Map(rows, RowWidth)), |rows|));
  }

  /**
   * The kept rows are exactly the bands whose stripped text is not empty, in order: each
   * row is built from such a band's tab-separated pieces and is a header row exactly when
   * it is band 0, and every such band yields one.
   */
  lemma RegionRowsSpec(r: Region)
    ensures var texts := RegionTexts(r);
      && (forall row :: row in RegionRows(r) ==>
            exists i :: 0 <= i < |texts| && Strip(texts[i]) != ""
              && row == RowOf(SplitOn(Strip(texts[i]), '\t'), i, OcrCell) && (row.isHeaderRow <==> i == 0))
      && (forall i :: 0 <= i < |texts| && Strip(texts[i]) != "" ==>
            RowOf(SplitOn(Strip(texts[i]), '\t'), i, OcrCell) in RegionRows(r))
  {
    var texts := RegionTexts(r);
    forall row | row in RegionRows(r)
      ensures exists i :: (0 <= i < |texts| && Strip(texts[i]) != ""
        && row == RowOf(SplitOn(Strip(texts[i]), '\t'), i, OcrCell) && (row.isHeaderRow <==> i == 0))
    {
      CollectFrom(texts, BandStep(), row);
      var i :| 0 <= i < |texts| && BandStep()(texts[i], i) == Some(row);
      assert BandStep()(texts[i], i) == BandRow(texts[i], i);
      BandCellsIsSplit(Strip(texts[i]));
    }
    forall i | 0 <= i < |texts| && Strip(texts[i]) != ""
      ensures RowOf(SplitOn(Strip(texts[i]), '\t'), i, OcrCell) in RegionRows(r)
    {
      assert BandStep()(texts[i], i) == BandRow(texts[i], i);
      BandCellsIsSplit(Strip(texts[i]));
      CollectTo(texts, BandStep(), i);
    }
  }

  /**
   * With no boundary the two bands are the top and bottom halves; with exactly one there
   * is no band and so no table.
   */
  lemma DefaultBands(r: Region)
    ensures var bounds := RowBoundaries(r.projection, r.width);
      && (|bounds| == 0 ==> RegionTexts(r) == [r.readBand(0, r.height / 2), r.readBand(r.height / 2, r.height)])
      && (|bounds| == 1 ==> RegionTable(r).None?)
  {
  }

  /**
   * A region gives no table exactly when no band has text; otherwise a valid table with a
   * header and no hint, one row per kept band, and as many columns as its widest row.
   */
  lemma RegionTableShape(r: Region)
    ensures RegionTable(r).None? <==> forall i :: 0 <= i < |RegionTexts(r)| ==> Strip(RegionTexts(r)[i]) == ""
    ensures RegionTable(r).Some? ==>
      var t := RegionTable(r).value;
      && t.TableBlock? && t.hasHeader && t.positionHint.None? && t.rows == RegionRows(r)
      && t.rowCount == |t.rows| && ValidBlock(t)
      && (forall k :: 0 <= k < |t.rows| ==> |t.rows[k].cells| <= t.columnCount)
      && (exists k :: 0 <= k < |t.rows| && |t.rows[k].cells| == t.columnCount)
  {
    RegionRowsEmpty(r);
    RegionRowsValid(r);
    WidestRow(RegionRows(r));
  }

  /** The column count bounds every row's width and is reached by some row. */
  lemma WidestRow(rows: seq<TableRow>)
    ensures forall k :: 0 <= k < |rows| ==> |rows[k].cells| <= Max(Map(rows, RowWidth))
    ensures |rows| > 0 ==> exists k :: 0 <= k < |rows| && |rows[k].cells| == Max(Map(rows, RowWidth))
  {
    var widths := Map(rows, RowWidth);
    if |rows| > 0 {
      var k :| 0 <= k < |widths| && widths[k] == Max(widths);
      assert |rows[k].cells| == Max(widths);
    }
  }

  /** No row is kept exactly when every band's stripped text is empty. */
  lemma RegionRowsEmpty(r: Region)
    ensures |RegionRows(r)| == 0 <==> forall i :: 0 <= i < |RegionTexts(r)| ==> Strip(RegionTexts(r)[i]) == ""
  {
    var texts := RegionTexts(r);
    CollectEmpty(texts, BandStep());
    forall i | 0 <= i < |texts| ensures BandStep()(texts[i], i).None? <==> Strip(texts[i]) == "" {
      assert BandStep()(texts[i], i) == BandRow(texts[i], i);
    }
  }

  /** Every cell of a kept row is valid. */
  lemma RegionRowsValid(r: Region)
    ensures forall k, j :: 0 <= k < |RegionRows(r)| && 0 <= j < |RegionRows(r)[k].cells| ==>
      ValidCell(RegionRows(r)[k].cells[j])
  {
    var texts := RegionTexts(r);
    var rows := RegionRows(r);
    forall k | 0 <= k < |rows| ensures forall j :: 0 <= j < |rows[k].cells| ==> ValidCell(rows[k].cells[j]) {
      var row := rows[k];
      CollectFrom(texts, BandStep(), row);
      var i :| 0 <= i < |texts| && BandStep()(texts[i], i) == Some(row);
      assert BandStep()(texts[i], i) == BandRow(texts[i], i);
      RowOfShape(BandCells(Strip(texts[i])), i, OcrCell);
    }
  }

  /** When band 0 has no text, no row is a header row, although the table still claims a header. */
  lemma NoHeaderWithoutBandZero(r: Region)
    requires |RegionTexts(r)| > 0 && Strip(RegionTexts(r)[0]) == ""
    ensures forall row :: row in RegionRows(r) ==> !row.isHeaderRow
  {
    RegionRowsSpec(r);
  }

  // ---------------------------------------------------------------- tables of an image

  /** A contour's region is read as a table only when it is wider than 100 and taller than 50 pixels. */
  function CandidateTable(r: Region, i: nat): Option<Block> {
    if r.width > 100 && r.height > 50 then RegionTable(r) else None
  }

  function CandidateStep(): (Region, nat) -> Option<Block> {
    (r: Region, i: nat) => CandidateTable(r, i)
  }

  /** `_extract_tables_from_image`: the tables of the large enough regions, in contour order. */
  function ImageTables(regions: seq<Region>): seq<Block> {
    Collect(regions, CandidateStep())
  }

  lemma CandidateStepAt(r: Region, i: nat)
    ensures CandidateStep()(r, i) == if r.width > 100 && r.height > 50 then RegionTable(r) else None
  {
  }

  method ExtractTablesFromImage(regions: seq<Region>) returns (tables: seq<Block>)
    ensures tables == ImageTables(regions)
  {
    tables := [];
    for i := 0 to |regions|
      invariant tables == Collect(regions[..i], CandidateStep())
    {
      CollectSnoc(regions, i, CandidateStep());
      CandidateStepAt(regions[i], i);
      var r := regions[i];
      if r.width > 100 && r.height > 50 {
        var t := OcrTableRegion(r);
        if t.Some? {
          tables := tables + [t.value];
        }
      }
    }
    assert regions[..|regions|] == regions;
  }

  /** Each table of an image is the valid table of a region wider than 100 and taller than 50 pixels. */
  lemma ImageTablesSpec(regions: seq<Region>)
    ensures forall t :: t in ImageTables(regions) ==>
      t.TableBlock? && ValidBlock(t)
      && exists i :: 0 <= i < |regions| && regions[i].width > 100 && regions[i].height > 50
           && RegionTable(regions[i]) == Some(t)
  {
    forall t | t in ImageTables(regions)
      ensures t.TableBlock? && ValidBlock(t)
        && exists i :: 0 <= i < |regions| && regions[i].width > 100 && regions[i].height > 50
             && RegionTable(regions[i]) == Some(t)
    {
      CollectFrom(regions, CandidateStep(), t);
      var i :| 0 <= i < |regions| && CandidateStep()(regions[i], i) == Some(t);
      assert CandidateStep()(regions[i], i) == CandidateTable(regions[i], i);
      RegionTableShape(regions[i]);
    }
  }

  // ---------------------------------------------------------------- words

  /** One entry of Tesseract's word data: its level, raw text, confidence and box. */
  datatype WordRecord = WordRecord(level: int, text: string, conf: real, left: int, top: int, width: int, height: int)

  /** The word loop skips an entry whose stripped text is empty or whose confidence is negative. */
  predicate Kept(w: WordRecord) {
    Strip(w.text) != "" && w.conf >= 0.0
  }

  /** Only kept word-level (level 5) entries produce a block and a confidence. */
  predicate IsWord(w: WordRecord) {
    Kept(w) && w.level == 5
  }

  /** The font size estimated from a box height: three quarters of it, at least 8. */
  function FontSize(height: int): (size: real)
    ensures size >= 8.0 && size >= height as real * 0.75
    ensures size == 8.0 || size == height as real * 0.75
  {
    var f := height as real * 0.75;
    if f > 8.0 then f else 8.0
  }

  /** The positioned block of a word: Arabic words in display form, right to left and tagged "ar". */
  function WordBlock(w: WordRecord): Block {
    var t := Strip(w.text);
    var arabic := IsArabicText(t);
    PositionedTextBlock(if arabic then RTL else TextExtractor.DirectionOf(t), None,
                        if arabic then FixArabicText(t) else t,
                        BoundingBox(w.left as real, w.top as real, w.width as real, w.height as real),
                        DefaultStyle.(fontSize := FontSize(w.height)),
                        w.conf / 100.0, Some(if arabic then "ar" else "en"))
  }

  function WordStep(): (WordRecord, nat) -> Option<Block> {
    (w: WordRecord, i: nat) => if IsWord(w) then Some(WordBlock(w)) else None
  }

  function ConfidenceStep(): (WordRecord, nat) -> Option<real> {
    (w: WordRecord, i: nat) => if IsWord(w) then Some(w.conf) else None
  }

  function WordBlocks(words: seq<WordRecord>): seq<Block> {
    Collect(words, WordStep())
  }

  function WordConfidences(words: seq<WordRecord>): seq<real> {
    Collect(words, ConfidenceStep())
  }

  lemma WordStepAt(w: WordRecord, i: nat)
    ensures WordStep()(w, i) == if IsWord(w) then Some(WordBlock(w)) else None
    ensures ConfidenceStep()(w, i) == if IsWord(w) then Some(w.conf) else None
  {
  }

  /** The word loop of `_perform_ocr`. */
  method ReadWords(words: seq<WordRecord>) returns (blocks: seq<Block>, confidences: seq<real>)
    ensures blocks == WordBlocks(words) && confidences == WordConfidences(words)
  {
    blocks := [];
    confidences := [];
    for i := 0 to |words|
      invariant blocks == Collect(words[..i], WordStep())
      invariant confidences == Collect(words[..i], ConfidenceStep())
    {
      CollectSnoc(words, i, WordStep());
      CollectSnoc(words, i, ConfidenceStep());
      WordStepAt(words[i], i);
      var text := Strip(words[i].text);
      if text == "" || words[i].conf < 0.0 {
        continue;
      }
      if words[i].level == 5 {
        confidences := confidences + [words[i].conf];
        blocks := blocks + [WordBlock(words[i])];
      }
    }
    assert words[..|words|] == words;
  }

  /**
   * The blocks are exactly those of the kept word-level entries, in order: each carries
   * its entry's box and its confidence divided by 100, and every such entry yields one.
   */
  lemma WordBlocksSpec(words: seq<WordRecord>)
    ensures forall b :: b in WordBlocks(words) ==>
      exists i :: 0 <= i < |words| && IsWord(words[i]) && b == WordBlock(words[i])
        && b.confidence == words[i].conf / 100.0 && b.bbox.height == words[i].height as real
    ensures forall i :: 0 <= i < |words| && IsWord(words[i]) ==> WordBlock(words[i]) in WordBlocks(words)
  {
    forall b | b in WordBlocks(words)
      ensures exists i :: (0 <= i < |words| && IsWord(words[i]) && b == WordBlock(words[i])
        && b.confidence == words[i].conf / 100.0 && b.bbox.height == words[i].height as real)
    {
      CollectFrom(words, WordStep(), b);
      var i :| 0 <= i < |words| && WordStep()(words[i], i) == Some(b);
      WordStepAt(words[i], i);
    }
    forall i | 0 <= i < |words| && IsWord(words[i]) ensures WordBlock(words[i]) in WordBlocks(words) {
      WordStepAt(words[i], i);
      CollectTo(words, WordStep(), i);
    }
  }

  /** There is one confidence per block, and no confidence exactly when no entry is a kept word. */
  lemma {:induction false} WordCounts(words: seq<WordRecord>)
    ensures |WordConfidences(words)| == |WordBlocks(words)|
    ensures |WordConfidences(words)| == 0 <==> forall i :: 0 <= i < |words| ==> !IsWord(words[i])
    decreases |words|
  {
    CollectEmpty(words, ConfidenceStep());
    forall i | 0 <= i < |words| ensures ConfidenceStep()(words[i], i).None? <==> !IsWord(words[i]) {
      WordStepAt(words[i], i);
    }
    if |words| > 0 {
      var n := |words| - 1;
      WordCounts(words[..n]);
      WordStepAt(words[n], n);
    }
  }

  /** Every kept word's confidence is at least 0. */
  lemma WordConfidencesNonNegative(words: seq<WordRecord>)
    ensures forall c :: c in WordConfidences(words) ==> c >= 0.0
  {
    forall c | c in WordConfidences(words) ensures c >= 0.0 {
      CollectFrom(words, ConfidenceStep(), c);
      var i :| 0 <= i < |words| && ConfidenceStep()(words[i], i) == Some(c);
      WordStepAt(words[i], i);
    }
  }

  /** Tesseract reports confidences of at most 100. */
  predicate ConfidencesInRange(words: seq<WordRecord>) {
    forall i :: 0 <= i < |words| ==> words[i].conf <= 100.0
  }

  /** With confidences of at most 100, every word block is valid. */
  lemma WordBlocksValid(words: seq<WordRecord>)
    requires ConfidencesInRange(words)
    ensures forall b :: b in WordBlocks(words) ==> b.PositionedTextBlock? && ValidBlock(b)
  {
    WordBlocksSpec(words);
  }

  // ---------------------------------------------------------------- confidence

  function SumReal(s: seq<real>): real {
    if |s| == 0 then 0.0 else SumReal(s[..|s| - 1]) + s[|s| - 1]
  }

  /** The mean of the word confidences, 0 when there is none. */
  function AverageConfidence(confidences: seq<real>): real {
    if |confidences| == 0 then 0.0 else SumReal(confidences) / |confidences| as real
  }

  lemma {:induction false} SumRealBounds(s: seq<real>, hi: real)
    requires forall i :: 0 <= i < |s| ==> 0.0 <= s[i] <= hi
    ensures 0.0 <= SumReal(s) <= hi * |s| as real
    decreases |s|
  {
    if |s| > 0 {
      SumRealBounds(s[..|s| - 1], hi);
    }
  }

  /** The mean lies between 0 and the largest possible confidence. */
  lemma AverageConfidenceBounds(confidences: seq<real>, hi: real)
    requires forall i :: 0 <= i < |confidences| ==> 0.0 <= confidences[i] <= hi
    ensures 0.0 <= AverageConfidence(confidences) <= (if |confidences| == 0 then 0.0 else hi)
  {
    if |confidences| > 0 {
      SumRealBounds(confidences, hi);
      var n := |confidences| as real;
      assert SumReal(confidences) / n <= hi * n / n;
    }
  }

  // ---------------------------------------------------------------- one image

  /** What the extractor reads from one image: the word records, the page text and the candidate table regions. */
  datatype PageScan = PageScan(words: seq<WordRecord>, pageText: string, regions: seq<Region>)

  datatype OcrResult = OcrResult(text: string, confidence: real, language: string, wordCount: nat,
                                 blocks: seq<Block>, tables: seq<Block>, isRtl: bool)

  /**
   * `_perform_ocr`: the cleaned page text (Arabic text in display form, which is what
   * `fix_arabic_text` gives), its metrics, the word blocks, the mean word confidence
   * divided by 100 and the tables of the regions.
   */
  function OcrOf(scan: PageScan): OcrResult {
    ResultOf(PageText(scan.pageText), WordBlocks(scan.words), WordConfidences(scan.words), ImageTables(scan.regions))
  }

  /** The page text as read: cleaned, and in display form when it is Arabic. */
  function PageText(raw: string): string {
    FixArabicText(CleanTextSpec(raw, true))
  }

  /** The result for a page text, the word blocks with their confidences, and the tables. */
  function ResultOf(text: string, blocks: seq<Block>, confidences: seq<real>, tables: seq<Block>): OcrResult {
    var m := GetTextMetrics(text);
    OcrResult(text, AverageConfidence(confidences) / 100.0, if m.isRtl then "ar" else "en",
              m.wordCount, blocks, tables, m.isRtl)
  }

  method PerformOcr(scan: PageScan) returns (r: OcrResult)
    ensures r == OcrOf(scan)
  {
    var blocks, confidences := ReadWords(scan.words);
    var text := CleanText(scan.pageText, true);
    if IsArabicText(text) {
      text := ArabicDisplay(text);
    }
    assert text == PageText(scan.pageText);
    var tables := ExtractTablesFromImage(scan.regions);
    r := ResultOf(text, blocks, confidences, tables);
  }

  /**
   * The confidence is 0 when no word is kept and lies in [0, 1] when Tesseract's
   * confidences are at most 100; the language is "ar" exactly when the page text reads
   * right to left, and the word count is that of the page text.
   */
  lemma OcrResultSpec(scan: PageScan)
    ensures var r := OcrOf(scan);
      && ((forall i :: 0 <= i < |scan.words| ==> !IsWord(scan.words[i])) ==> r.confidence == 0.0)
      && (ConfidencesInRange(scan.words) ==> 0.0 <= r.confidence <= 1.0)
      && (r.language == "ar" <==> r.isRtl) && (r.isRtl <==> Direction(r.text) == "rtl")
      && r.wordCount == CountWords(r.text)
  {
    var confidences := WordConfidences(scan.words);
    WordCounts(scan.words);
    if ConfidencesInRange(scan.words) {
      forall k | 0 <= k < |confidences| ensures 0.0 <= confidences[k] <= 100.0 {
        var c := confidences[k];
        CollectFrom(scan.words, ConfidenceStep(), c);
        var i :| 0 <= i < |scan.words| && ConfidenceStep()(scan.words[i], i) == Some(c);
        WordStepAt(scan.words[i], i);
      }
      AverageConfidenceBounds(confidences, 100.0);
    }
  }

  /** The direction of an OCR result. */
  function ResultDirection(r: OcrResult): TextDirection {
    if r.isRtl then RTL else LTR
  }

  /** `OCRExtractor.extract`: one page of word blocks followed by tables. */
  function ExtractSpec(path: string, scan: PageScan, base: Metadata): Document {
    ImageDocument(path, OcrOf(scan), base)
  }

  /** The document of one image read as `r`. */
  function ImageDocument(path: string, r: OcrResult, base: Metadata): Document {
    var m := Metadata(base.sourceFilename, None, None, None, None, [], Some(if r.isRtl then "ar" else "en"),
                      Some(1), Some(r.wordCount), Some("image"), base.sourceFilename);
    Document(if Truthy(m.title) then m.title else Some(Stem(path)), m,
             [Page(1, None, r.blocks + r.tables, ResultDirection(r))], ResultDirection(r))
  }

  method Extract(path: string, scan: PageScan, base: Metadata) returns (d: Document)
    ensures d == ExtractSpec(path, scan, base)
  {
    var r := PerformOcr(scan);
    d := BuildImageDocument(path, r, base);
  }

  /** The part of `extract` after OCR: metadata, the page's blocks and the document. */
  method BuildImageDocument(path: string, r: OcrResult, base: Metadata) returns (d: Document)
    ensures d == ImageDocument(path, r, base)
  {
    var language := if r.isRtl then "ar" else "en";
    var m := Metadata(base.sourceFilename, None, None, None, None, [], Some(language),
                      Some(1), Some(r.wordCount), Some("image"), base.sourceFilename);
    var blocks := AppendEach([], r.blocks);
    blocks := AppendEach(blocks, r.tables);
    assert blocks == r.blocks + r.tables;
    var direction := if r.isRtl then RTL else LTR;
    var page := Page(1, None, blocks, direction);
    d := Document(if Truthy(m.title) then m.title else Some(Stem(path)), m, [page], direction);
  }

  /** A loop appending each element of `xs` to `acc`. */
  method AppendEach(acc: seq<Block>, xs: seq<Block>) returns (r: seq<Block>)
    ensures r == acc + xs
  {
    r := acc;
    for i := 0 to |xs|
      invariant r == acc + xs[..i]
    {
      assert xs[..i + 1] == xs[..i] + [xs[i]];
      r := r + [xs[i]];
    }
    assert xs[..|xs|] == xs;
  }

  /**
   * One page, numbered 1, holding the word blocks and then the tables, in the document's
   * direction; the metadata names the source file as title, counts one page and the
   * words of the page text, and records the format "image".
   */
  lemma ExtractShape(path: string, scan: PageScan, base: Metadata)
    ensures var d := ExtractSpec(path, scan, base);
      && |d.pages| == 1 && d.pages[0].pageNumber == 1
      && d.pages[0].blocks == WordBlocks(scan.words) + ImageTables(scan.regions)
      && d.pages[0].direction == d.direction
      && d.metadata.pageCount == Some(1) && d.metadata.sourceFormat == Some("image")
      && d.metadata.title == base.sourceFilename
      && d.metadata.wordCount == Some(CountWords(OcrOf(scan).text))
      && d.title == (if Truthy(base.sourceFilename) then base.sourceFilename else Some(Stem(path)))
      && (d.direction == RTL <==> d.metadata.language == Some("ar"))
  {
    OcrResultSpec(scan);
  }

  /** With confidences of at most 100, the extracted document satisfies the record constraints. */
  lemma ExtractValid(path: string, scan: PageScan, base: Metadata)
    requires ConfidencesInRange(scan.words)
    ensures ValidDocument(ExtractSpec(path, scan, base))
  {
    PageScanValid(scan, 0);
  }

  /** The blocks of an image, as a page numbered `i + 1`, are valid. */
  lemma PageScanValid(scan: PageScan, i: nat)
    requires ConfidencesInRange(scan.words)
    ensures ValidPage(PageOf(OcrOf(scan), i + 1))
  {
    WordBlocksValid(scan.words);
    ImageTablesSpec(scan.regions);
  }

  // ---------------------------------------------------------------- scanned PDFs

  /** Image `i` of a scanned PDF becomes page `i + 1`. */
  function ScannedPage(scan: PageScan, i: nat): Page {
    PageOf(OcrOf(scan), i + 1)
  }

  /** The page numbered `n` of an image read as `r`: its word blocks, then its tables. */
  function PageOf(r: OcrResult, n: int): Page {
    Page(n, None, r.blocks + r.tables, ResultDirection(r))
  }

  function ScannedStep(): (PageScan, nat) -> Page {
    (scan: PageScan, i: nat) => ScannedPage(scan, i)
  }

  function TextStep(): (PageScan, nat) -> string {
    (scan: PageScan, i: nat) => ScanText(scan)
  }

  function ScanText(scan: PageScan): string {
    OcrOf(scan).text
  }

  lemma ScannedStepAt(scan: PageScan, i: nat)
    ensures ScannedStep()(scan, i) == ScannedPage(scan, i)
  {
  }

  /** `ScannedPDFExtractor.extract`: the metadata counts the pages and the words of the joined page texts. */
  function ScannedSpec(path: string, scans: seq<PageScan>, base: Metadata): Document {
    var pages := MapIndexed(scans, ScannedStep());
    var m := GetTextMetrics(Join(MapIndexed(scans, TextStep()), "\n\n"));
    var md := base.(pageCount := Some(|pages|), wordCount := Some(m.wordCount),
                    language := Some(if m.isRtl then "ar" else "en"), sourceFormat := Some("scanned_pdf"));
    Document(if Truthy(md.title) then md.title else Some(Stem(path)), md, pages, if m.isRtl then RTL else LTR)
  }

  /** The image loop of the scanned-PDF extractor. */
  method ScanPages(scans: seq<PageScan>) returns (pages: seq<Page>, texts: seq<string>)
    ensures pages == MapIndexed(scans, ScannedStep()) && texts == MapIndexed(scans, TextStep())
  {
    pages := [];
    texts := [];
    for i := 0 to |scans|
      invariant pages == MapIndexed(scans[..i], ScannedStep())
      invariant texts == MapIndexed(scans[..i], TextStep())
    {
      MapIndexedSnoc(scans, i, ScannedStep());
      MapIndexedSnoc(scans, i, TextStep());
      var page, text := ScanPage(scans[i], i);
      pages := pages + [page];
      texts := texts + [text];
    }
    assert scans[..|scans|] == scans;
  }

  /** One pass of the image loop: OCR of image `i`, its page and its text. */
  method ScanPage(scan: PageScan, i: nat) returns (page: Page, text: string)
    ensures page == ScannedStep()(scan, i) && text == TextStep()(scan, i)
  {
    ScannedStepAt(scan, i);
    var r := PerformOcr(scan);
    var blocks := r.blocks + r.tables;
    page := Page(i + 1, None, blocks, if r.isRtl then RTL else LTR);
    assert page == PageOf(r, i + 1);
    text := r.text;
  }

  method ExtractScanned(path: string, scans: seq<PageScan>, base: Metadata) returns (d: Document)
    ensures d == ScannedSpec(path, scans, base)
  {
    var pages, texts := ScanPages(scans);
    var m := GetTextMetrics(Join(texts, "\n\n"));
    var md := base.(pageCount := Some(|pages|), wordCount := Some(m.wordCount),
                    language := Some(if m.isRtl then "ar" else "en"), sourceFormat := Some("scanned_pdf"));
    d := Document(if Truthy(md.title) then md.title else Some(Stem(path)), md, pages, if m.isRtl then RTL else LTR);
  }

  /**
   * Images become pages 1 to n in order, each holding its image's word blocks and then
   * its tables; the page count is n and the format "scanned_pdf".
   */
  lemma ScannedPages(path: string, scans: seq<PageScan>, base: Metadata)
    ensures var d := ScannedSpec(path, scans, base);
      && |d.pages| == |scans| && d.metadata.pageCount == Some(|scans|)
      && d.metadata.sourceFormat == Some("scanned_pdf")
      && forall k :: 0 <= k < |scans| ==>
           d.pages[k].pageNumber == k + 1
           && d.pages[k].blocks == WordBlocks(scans[k].words) + ImageTables(scans[k].regions)
  {
    forall k | 0 <= k < |scans|
      ensures MapIndexed(scans, ScannedStep())[k].pageNumber == k + 1
        && MapIndexed(scans, ScannedStep())[k].blocks == WordBlocks(scans[k].words) + ImageTables(scans[k].regions)
    {
      MapIndexedAt(scans, ScannedStep(), k);
      ScannedStepAt(scans[k], k);
    }
  }

  /** With confidences of at most 100 in every image, the extracted document satisfies the record constraints. */
  lemma ScannedValid(path: string, scans: seq<PageScan>, base: Metadata)
    requires forall k :: 0 <= k < |scans| ==> ConfidencesInRange(scans[k].words)
    ensures ValidDocument(ScannedSpec(path, scans, base))
  {
    var pages := MapIndexed(scans, ScannedStep());
    forall p | p in pages ensures ValidPage(p) {
      var k :| 0 <= k < |pages| && pages[k] == p;
      MapIndexedAt(scans, ScannedStep(), k);
      ScannedStepAt(scans[k], k);
      PageScanValid(scans[k], k);
    }
  }
}
