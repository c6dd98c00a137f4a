/**
 * The table construction the PDF, Word and PowerPoint extractors share: one row per
 * row of a grid, one cell per grid entry, the first row (and only it) marked as the
 * header, a header flag on the table, and the counts taken from the rows. How a grid
 * entry becomes a cell is a parameter.
 */
module Tables {
  import opened Wrappers
  import opened Seqs
  import opened DocumentModel

  /** The cell builder with the header flag fixed. */
  function CellsWith<C>(cell: (C, bool) -> TableCell, isHeader: bool): C -> TableCell {
    (c: C) => cell(c, isHeader)
  }

  /** Row `r` of a grid: a header row exactly when it is the first. */
  function RowOf<C>(data: seq<C>, r: nat, cell: (C, bool) -> TableCell): TableRow {
    TableRow(Map(data, CellsWith(cell, r == 0)), r == 0)
  }

  /** The rows of a grid, in order. */
  function HeaderRows<C>(grid: seq<seq<C>>, cell: (C, bool) -> TableCell): (rows: seq<TableRow>)
    ensures |rows| == |grid|
    decreases |grid|
  {
    if |grid| == 0 then [] else HeaderRows(grid[..|grid| - 1], cell) + [RowOf(grid[|grid| - 1], |grid| - 1, cell)]
  }

  lemma {:induction false} HeaderRowsAt<C>(grid: seq<seq<C>>, cell: (C, bool) -> TableCell, k: nat)
    requires k < |grid|
    ensures HeaderRows(grid, cell)[k] == RowOf(grid[k], k, cell)
    decreases |grid|
  {
    if k < |grid| - 1 {
      HeaderRowsAt(grid[..|grid| - 1], cell, k);
    }
  }

  lemma HeaderRowsSnoc<C>(grid: seq<seq<C>>, cell: (C, bool) -> TableCell, r: nat)
    requires r < |grid|
    ensures HeaderRows(grid[..r + 1], cell) == HeaderRows(grid[..r], cell) + [RowOf(grid[r], r, cell)]
  {
    assert grid[..r + 1][..r] == grid[..r];
  }

  /** The table of a grid, or None when the grid has no row. */
  function HeaderTable<C>(grid: seq<seq<C>>, cell: (C, bool) -> TableCell, hint: Option<string>): Option<Block> {
    if |grid| == 0 then None
    else
      var rows := HeaderRows(grid, cell);
      Some(TableBlock(AUTO, hint, rows, None, true, |rows[0].cells|, |rows|))
  }

  /** The cell builder keeps the header flag it is given and yields valid cells. */
  ghost predicate FlagKeeping<C(!new)>(cell: (C, bool) -> TableCell) {
    forall c: C, h: bool :: cell(c, h).isHeader == h && ValidCell(cell(c, h))
  }

  /** A row built by a flag-keeping builder: one valid cell per entry, header cells exactly in row 0. */
  lemma RowOfShape<C(!new)>(data: seq<C>, r: nat, cell: (C, bool) -> TableCell)
    requires FlagKeeping(cell)
    ensures |RowOf(data, r, cell).cells| == |data| && (RowOf(data, r, cell).isHeaderRow <==> r == 0)
    ensures forall j :: 0 <= j < |data| ==>
      RowOf(data, r, cell).cells[j] == cell(data[j], r == 0) && ValidCell(RowOf(data, r, cell).cells[j])
      && (RowOf(data, r, cell).cells[j].isHeader <==> r == 0)
  {
    forall j | 0 <= j < |data| ensures RowOf(data, r, cell).cells[j] == cell(data[j], r == 0) {
      assert RowOf(data, r, cell).cells[j] == CellsWith(cell, r == 0)(data[j]);
    }
  }

  /**
   * A non-empty grid gives a valid table with a header, as many rows as the grid and as
   * many columns as its first row; row k has one cell per entry of grid row k, built
   * from that entry, and is a header row (with header cells) exactly when k is 0.
   */
  lemma HeaderTableShape<C(!new)>(grid: seq<seq<C>>, cell: (C, bool) -> TableCell, hint: Option<string>)
    requires FlagKeeping(cell)
    ensures HeaderTable(grid, cell, hint).None? <==> |grid| == 0
    ensures HeaderTable(grid, cell, hint).Some? ==>
      var t := HeaderTable(grid, cell, hint).value;
      && t.TableBlock? && t.hasHeader && t.positionHint == hint
      && t.rowCount == |grid| && t.columnCount == |grid[0]| && |t.rows| == |grid| && ValidBlock(t)
      && (forall k :: 0 <= k < |grid| ==>
            |t.rows[k].cells| == |grid[k]| && (t.rows[k].isHeaderRow <==> k == 0))
      && (forall k, j :: 0 <= k < |grid| && 0 <= j < |grid[k]| ==>
            t.rows[k].cells[j] == cell(grid[k][j], k == 0) && (t.rows[k].cells[j].isHeader <==> k == 0))
  {
    if |grid| > 0 {
      var rows := HeaderRows(grid, cell);
      forall k | 0 <= k < |grid| ensures rows[k] == RowOf(grid[k], k, cell) {
        HeaderRowsAt(grid, cell, k);
      }
    }
  }

  /** The cell loop: one cell per entry. */
  method BuildCells<C>(data: seq<C>, f: C -> TableCell) returns (cells: seq<TableCell>)
    ensures cells == Map(data, f)
  {
    cells := [];
    for j := 0 to |data|
      invariant cells == Map(data[..j], f)
    {
      MapSnoc([], data, j, f);
      cells := cells + [f(data[j])];
    }
    assert data[..|data|] == data;
  }

  /** The row loop: each row's cells, the first row flagged as the header. */
  method BuildHeaderRows<C>(grid: seq<seq<C>>, cell: (C, bool) -> TableCell) returns (rows: seq<TableRow>)
    ensures rows == HeaderRows(grid, cell)
  {
    rows := [];
    for r := 0 to |grid|
      invariant rows == HeaderRows(grid[..r], cell)
    {
      HeaderRowsSnoc(grid, cell, r);
      var cells := BuildCells(grid[r], CellsWith(cell, r == 0));
      rows := rows + [TableRow(cells, r == 0)];
    }
    assert grid[..|grid|] == grid;
  }

  /** The table step: None for a grid without rows. */
  method BuildHeaderTable<C>(grid: seq<seq<C>>, cell: (C, bool) -> TableCell, hint: Option<string>) returns (t: Option<Block>)
    ensures t == HeaderTable(grid, cell, hint)
  {
    var rows := BuildHeaderRows(grid, cell);
    if |rows| == 0 {
      return None;
    }
    t := Some(TableBlock(AUTO, hint, rows, None, true, |rows[0].cells|, |rows|));
  }
}
