/** One worksheet: a fixed-size grid of cells with row heights, column widths and its formula engine. */
module Sheet {
  import opened Wrappers
  import opened Numbers
  import opened Cells
  import opened Evaluator
  import opened Engine
  import EngineLaws

  /** Height every row starts with. */
  const DefaultRowHeight: real := 22.0
  /** Width every column starts with, provided the sheet has at least one row. */
  const DefaultColumnWidth: real := 100.0

  /** The grid g with the entry at (r, c) replaced by v. */
  function Put(g: Grid, r: nat, c: nat, v: string): (h: Grid)
    requires r < |g| && c < |g[r]|
    ensures |h| == |g| && forall i :: 0 <= i < |h| ==> |h[i]| == |g[i]|
    ensures forall i, j :: 0 <= i < |h| && 0 <= j < |h[i]| ==> h[i][j] == (if i == r && j == c then v else g[i][j])
  {
    g[r := g[r][c := v]]
  }

  /** The positions of a rows-by-cols grid in row-major order. */
  function Positions(rows: nat, cols: nat): seq<(nat, nat)>
  {
    if rows == 0 then [] else Positions(rows - 1, cols) + RowPositions(rows - 1, cols)
  }

  /** The first c positions of row r, left to right. */
  function RowPositions(r: nat, c: nat): seq<(nat, nat)>
  {
    if c == 0 then [] else RowPositions(r, c - 1) + [(r, c - 1)]
  }

  /** The (row, column) part of each enumerated triple. */
  function Coordinates<T>(triples: seq<(nat, nat, T)>): (s: seq<(nat, nat)>)
    ensures |s| == |triples|
    ensures forall k :: 0 <= k < |s| ==> s[k] == (triples[k].0, triples[k].1)
  {
    seq(|triples|, k requires 0 <= k < |triples| => (triples[k].0, triples[k].1))
  }

  /** A cell as a new CellModel starts: no content, no wrapping. */
  predicate Blank(cell: CellModel)
    reads cell
  {
    cell.RawContent == "" && cell.DisplayValue == "" && cell.Wrapping == NoWrap
  }

  /** No cell object appears at two of the positions that come before (r, c) in row-major order. */
  predicate DistinctBefore(cells: array2<CellModel>, r: int, c: int)
    reads cells
  {
    forall i, j, i', j' ::
      (0 <= i < cells.Length0 && 0 <= j < cells.Length1 && 0 <= i' < cells.Length0 && 0 <= j' < cells.Length1 &&
       Before(i, j, r, c) && Before(i', j', r, c) && (i != i' || j != j'))
      ==> cells[i, j] != cells[i', j']
  }

  class SpreadsheetModel {
    var Name: string
    const Rows: nat
    const Columns: nat
    const Cells: array2<CellModel>
    const ColumnWidths: array<real>
    const RowHeights: array<real>
    const Formulas: FormulaEngine
    var ShowGridLines: bool
    var IsVisible: bool

    /** The arrays have the sheet's dimensions, the engine works on this sheet's cells, and no cell is shared. */
    predicate Valid()
      reads this, Cells
    {
      Cells.Length0 == Rows && Cells.Length1 == Columns &&
      ColumnWidths.Length == Columns && RowHeights.Length == Rows &&
      Formulas.cells == Cells && Distinct(Cells)
    }

    constructor(rows: nat, columns: nat, name: string, culture: NumberCulture)
      ensures Valid() && Name == name && Rows == rows && Columns == columns
      ensures ShowGridLines && IsVisible && Formulas.culture == culture
      ensures fresh(Cells) && fresh(ColumnWidths) && fresh(RowHeights) && ColumnWidths != RowHeights
      ensures forall r :: 0 <= r < rows ==> RowHeights[r] == DefaultRowHeight
      ensures forall c :: 0 <= c < columns ==> ColumnWidths[c] == (if rows > 0 then DefaultColumnWidth else 0.0)
      ensures forall r, c :: 0 <= r < rows && 0 <= c < columns ==>
        fresh(Cells[r, c]) && Blank(Cells[r, c])
    {
      var placeholder := new CellModel();
      var cells := new CellModel[rows, columns]((_, _) => placeholder);
      var widths := new real[columns](_ => 0.0);
      var heights := new real[rows](_ => 0.0);
      var r := 0;
      while r < rows
        invariant 0 <= r <= rows
        invariant forall i :: 0 <= i < r ==> heights[i] == DefaultRowHeight
        invariant forall j :: 0 <= j < columns ==> widths[j] == (if r > 0 then DefaultColumnWidth else 0.0)
        invariant forall i, j :: 0 <= i < r && 0 <= j < columns ==> fresh(cells[i, j]) && Blank(cells[i, j])
        invariant DistinctBefore(cells, r, 0)
      {
        heights[r] := DefaultRowHeight;
        FillRow(cells, widths, r);
        r := r + 1;
      }
      Name := name;
      Rows := rows;
      Columns := columns;
      Cells := cells;
      ColumnWidths := widths;
      RowHeights := heights;
      Formulas := new FormulaEngine(cells, culture);
      ShowGridLines := true;
      IsVisible := true;
    }

    /**
     * The inner loop of the constructor for row r: a fresh blank cell at each column,
     * and the default width for each column while filling the first row.
     */
    static method FillRow(cells: array2<CellModel>, widths: array<real>, r: nat)
      requires r < cells.Length0 && widths.Length == cells.Length1
      requires DistinctBefore(cells, r, 0)
      modifies cells, widths
      ensures forall j :: 0 <= j < cells.Length1 ==> fresh(cells[r, j]) && Blank(cells[r, j])
      ensures forall i, j :: 0 <= i < cells.Length0 && i != r && 0 <= j < cells.Length1 ==> cells[i, j] == old(cells[i, j])
      ensures forall j :: 0 <= j < widths.Length ==> widths[j] == (if r == 0 then DefaultColumnWidth else old(widths[j]))
      ensures DistinctBefore(cells, r + 1, 0)
    {
      var c := 0;
      while c < cells.Length1
        invariant 0 <= c <= cells.Length1
        invariant forall j :: 0 <= j < c ==> fresh(cells[r, j]) && Blank(cells[r, j])
        invariant forall i, j :: 0 <= i < cells.Length0 && i != r && 0 <= j < cells.Length1 ==> cells[i, j] == old(cells[i, j])
        invariant forall j :: 0 <= j < widths.Length ==>
          widths[j] == (if r == 0 && j < c then DefaultColumnWidth else old(widths[j]))
        invariant DistinctBefore(cells, r, c)
      {
        if r == 0 {
          widths[c] := DefaultColumnWidth;
        }
        var cell := new CellModel();
        cells[r, c] := cell;
        c := c + 1;
      }
    }

    /** The indexer: the cell at (row, col), or nothing where the array access would throw. */
    function At(row: int, col: int): (cell: Option<CellModel>)
      reads this, Cells
      ensures cell.Some? <==> 0 <= row < Rows && 0 <= col < Columns && row < Cells.Length0 && col < Cells.Length1
      ensures cell.Some? ==> cell.value == Cells[row, col]
    {
      if 0 <= row < Cells.Length0 && 0 <= col < Cells.Length1 && row < Rows && col < Columns
      then Some(Cells[row, col]) else None
    }

    /**
     * Stores value (null read as "") as both raw and display text of the cell at
     * (row, col), then recalculates the whole sheet; outside the grid nothing changes.
     */
    method SetCell(row: int, col: int, value: Option<string>)
      requires Valid()
      modifies CellSet(Cells)
      ensures Valid()
      ensures !(0 <= row < Rows && 0 <= col < Columns) ==> unchanged(CellSet(Cells))
      ensures 0 <= row < Rows && 0 <= col < Columns ==>
        RawGrid(Cells) == Put(old(RawGrid(Cells)), row, col, OrEmpty(value)) &&
        DisplayGrid(Cells) == Recalculated(RawGrid(Cells),
          Put(old(DisplayGrid(Cells)), row, col, OrEmpty(value)), Rows, Columns, Rule(Formulas.culture))
      ensures 0 <= row < Rows && 0 <= col < Columns && !IsFormulaText(OrEmpty(value)) ==>
        Cells[row, col].RawContent == OrEmpty(value) && Cells[row, col].DisplayValue == OrEmpty(value)
    {
      if row < 0 || col < 0 || row >= Rows || col >= Columns {
        return;
      }
      ghost var shown := DisplayGrid(Cells);
      Store(row, col, OrEmpty(value));
      Formulas.RecalculateAll();
      if !IsFormulaText(OrEmpty(value)) {
        EngineLaws.NonFormulaShowsRaw(RawGrid(Cells), Put(shown, row, col, OrEmpty(value)),
          Rows, Columns, row, col, Formulas.culture);
      }
    }

    /** The first half of SetCell: text becomes both the raw and the display text of the cell at (row, col). */
    method Store(row: nat, col: nat, text: string)
      requires Valid() && row < Rows && col < Columns
      modifies Cells[row, col]
      ensures RawGrid(Cells) == Put(old(RawGrid(Cells)), row, col, text)
      ensures DisplayGrid(Cells) == Put(old(DisplayGrid(Cells)), row, col, text)
    {
      ghost var raws := RawGrid(Cells);
      ghost var shown := DisplayGrid(Cells);
      var cell := Cells[row, col];
      cell.RawContent := text;
      cell.DisplayValue := text;
      SameGrid(RawGrid(Cells), Put(raws, row, col, text));
      SameGrid(DisplayGrid(Cells), Put(shown, row, col, text));
    }

    /** Recalculates every formula of the sheet; raw contents stay as they are. */
    method Recalculate()
      requires Valid()
      modifies CellSet(Cells)
      ensures Valid()
      ensures RawGrid(Cells) == old(RawGrid(Cells))
      ensures DisplayGrid(Cells) == Recalculated(old(RawGrid(Cells)), old(DisplayGrid(Cells)), Rows, Columns, Rule(Formulas.culture))
    {
      Formulas.RecalculateAll();
    }

    /** Every cell with its position, row by row and left to right within a row. */
    method EnumerateCells() returns (triples: seq<(nat, nat, CellModel)>)
      requires Valid()
      ensures Coordinates(triples) == Positions(Rows, Columns)
      ensures forall k :: 0 <= k < |triples| ==>
        triples[k].0 < Rows && triples[k].1 < Columns && triples[k].2 == Cells[triples[k].0, triples[k].1]
    {
      triples := [];
      var r := 0;
      while r < Rows
        invariant 0 <= r <= Rows
        invariant Coordinates(triples) == Positions(r, Columns)
        invariant forall k :: 0 <= k < |triples| ==>
          triples[k].0 < Rows && triples[k].1 < Columns && triples[k].2 == Cells[triples[k].0, triples[k].1]
      {
        var c := 0;
        while c < Columns
          invariant 0 <= c <= Columns
          invariant Coordinates(triples) == Positions(r, Columns) + RowPositions(r, c)
          invariant forall k :: 0 <= k < |triples| ==>
            triples[k].0 < Rows && triples[k].1 < Columns && triples[k].2 == Cells[triples[k].0, triples[k].1]
        {
          assert Coordinates(triples + [(r, c, Cells[r, c])]) == Coordinates(triples) + [(r, c)];
          triples := triples + [(r, c, Cells[r, c])];
          c := c + 1;
        }
        r := r + 1;
      }
    }
  }
}
