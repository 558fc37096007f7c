/**
 * Printing a sheet: rows are split greedily into pages that fit the printable
 * height, and each page is printed from a sub-sheet holding just its rows.
 */
module Printing {
  import opened Wrappers
  import opened Cells
  import opened Sheet
  import opened GridControl

  /** Page margins in device-independent pixels: 0.7 inch left and right, 0.75 inch top and bottom. */
  const MarginLeft: real := 0.7 * 96.0
  const MarginRight: real := 0.7 * 96.0
  const MarginTop: real := 0.75 * 96.0
  const MarginBottom: real := 0.75 * 96.0

  /** A page: the rows First .. End - 1. */
  datatype Page = Page(First: nat, End: nat)

  /** The pages are non-empty, consecutive and together hold exactly the rows 0 .. n - 1. */
  predicate Tiles(pages: seq<Page>, n: nat)
  {
    (|pages| == 0 <==> n == 0) &&
    (|pages| > 0 ==> pages[0].First == 0 && pages[|pages| - 1].End == n) &&
    (forall k :: 0 <= k < |pages| ==> pages[k].First < pages[k].End) &&
    (forall k :: 0 <= k < |pages| - 1 ==> pages[k].End == pages[k + 1].First)
  }

  /** The page's rows fit in usable height, unless it is a single row taller than that. */
  predicate Fits(heights: seq<real>, p: Page, usable: real)
  {
    p.First <= p.End <= |heights| &&
    (Span(heights, p.First, p.End) <= usable || (p.End == p.First + 1 && heights[p.First] > usable))
  }

  /** A page whose rows fit could not have taken the next row as well. */
  predicate Full(heights: seq<real>, p: Page, usable: real)
  {
    p.First <= p.End <= |heights| &&
    (p.End < |heights| && Span(heights, p.First, p.End) <= usable ==> Span(heights, p.First, p.End + 1) > usable)
  }

  /** The printed pages of a sheet: an error for a non-positive page size, otherwise the greedy pagination. */
  method Print(model: SpreadsheetModel, pageWidth: real, pageHeight: real) returns (r: Result<seq<Page>>)
    requires model.Valid()
    ensures (pageWidth <= 0.0 || pageHeight <= 0.0) <==> r.Failure?
    ensures r.Success? ==>
      var usable := pageHeight - MarginTop - MarginBottom;
      Tiles(r.value, model.Rows) &&
      forall k :: 0 <= k < |r.value| ==>
        Fits(model.RowHeights[..], r.value[k], usable) && Full(model.RowHeights[..], r.value[k], usable)
  {
    if pageWidth <= 0.0 || pageHeight <= 0.0 {
      return Failure;
    }
    var pages := Paginate(model, pageHeight - MarginTop - MarginBottom);
    return Success(pages);
  }

  /** The row ranges of the pages, filled one after the other. */
  method Paginate(model: SpreadsheetModel, usable: real) returns (pages: seq<Page>)
    requires model.Valid()
    ensures Tiles(pages, model.Rows)
    ensures forall k :: 0 <= k < |pages| ==>
      Fits(model.RowHeights[..], pages[k], usable) && Full(model.RowHeights[..], pages[k], usable)
  {
    pages := [];
    var currentRow := 0;
    while currentRow < model.Rows
      invariant 0 <= currentRow <= model.Rows
      invariant Tiles(pages, currentRow)
      invariant forall k :: 0 <= k < |pages| ==>
        Fits(model.RowHeights[..], pages[k], usable) && Full(model.RowHeights[..], pages[k], usable)
      decreases model.Rows - currentRow
    {
      var lastRowOnPage := PageEnd(model.RowHeights, currentRow, usable);
      pages := pages + [Page(currentRow, lastRowOnPage)];
      currentRow := lastRowOnPage;
    }
  }

  /**
   * The inner loop: the end of the page starting at row start, taking rows while
   * their total height stays within usable, and at least one row.
   */
  method PageEnd(heights: array<real>, start: nat, usable: real) returns (end: nat)
    requires start < heights.Length
    ensures start < end <= heights.Length
    ensures Fits(heights[..], Page(start, end), usable) && Full(heights[..], Page(start, end), usable)
  {
    ghost var h := heights[..];
    var yAccum := 0.0;
    end := start;
    while end < heights.Length && yAccum + heights[end] <= usable
      invariant start <= end <= heights.Length
      invariant yAccum == Span(h, start, end)
      invariant end > start ==> yAccum <= usable
    {
      yAccum := yAccum + heights[end];
      end := end + 1;
    }
    if end == start {
      end := end + 1;
    }
  }

  /**
   * A new sheet of the rows startRow .. endRow - 1: the same column widths and
   * grid-line setting, those rows' heights, and the very cell objects of those rows.
   */
  method CreateSubModel(model: SpreadsheetModel, startRow: nat, endRow: nat) returns (sub: SpreadsheetModel)
    requires model.Valid() && startRow <= endRow <= model.Rows
    ensures fresh(sub) && fresh(sub.Cells) && fresh(sub.ColumnWidths) && fresh(sub.RowHeights)
    ensures sub.Valid()
    ensures sub.Rows == endRow - startRow && sub.Columns == model.Columns && sub.Name == ""
    ensures sub.ColumnWidths[..] == model.ColumnWidths[..]
    ensures sub.RowHeights[..] == model.RowHeights[startRow..endRow]
    ensures forall r, c :: 0 <= r < sub.Rows && 0 <= c < sub.Columns ==> sub.Cells[r, c] == model.Cells[startRow + r, c]
    ensures sub.ShowGridLines == model.ShowGridLines
  {
    var rowCount := endRow - startRow;
    sub := new SpreadsheetModel(rowCount, model.Columns, "", model.Formulas.culture);
    label made:
    var c := 0;
    while c < model.Columns
      invariant 0 <= c <= model.Columns
      invariant forall j :: 0 <= j < c ==> sub.ColumnWidths[j] == model.ColumnWidths[j]
      invariant unchanged@made(sub)
    {
      sub.ColumnWidths[c] := model.ColumnWidths[c];
      c := c + 1;
    }
    var r := 0;
    while r < rowCount
      invariant 0 <= r <= rowCount
      invariant forall j :: 0 <= j < r ==> sub.RowHeights[j] == model.RowHeights[startRow + j]
      invariant sub.ColumnWidths[..] == model.ColumnWidths[..]
      invariant unchanged@made(sub)
    {
      sub.RowHeights[r] := model.RowHeights[startRow + r];
      r := r + 1;
    }
    r := 0;
    while r < rowCount
      invariant 0 <= r <= rowCount
      invariant forall i, j :: 0 <= i < r && 0 <= j < model.Columns ==> sub.Cells[i, j] == model.Cells[startRow + i, j]
      invariant sub.ColumnWidths[..] == model.ColumnWidths[..]
      invariant sub.RowHeights[..] == model.RowHeights[startRow..endRow]
      invariant unchanged@made(sub)
    {
      CopyRow(model, sub.Cells, startRow, r);
      r := r + 1;
    }
    sub.ShowGridLines := model.ShowGridLines;
    CopiedDistinct(model, sub.Cells, startRow);
  }

  /** The inner copy loop: row r of the page takes the cells of row startRow + r of the sheet. */
  method CopyRow(model: SpreadsheetModel, cells: array2<CellModel>, startRow: nat, r: nat)
    requires model.Valid() && cells != model.Cells
    requires cells.Length1 == model.Columns && r < cells.Length0 && startRow + r < model.Rows
    modifies cells
    ensures forall j :: 0 <= j < cells.Length1 ==> cells[r, j] == model.Cells[startRow + r, j]
    ensures forall i, j :: 0 <= i < cells.Length0 && i != r && 0 <= j < cells.Length1 ==> cells[i, j] == old(cells[i, j])
  {
    var c := 0;
    while c < model.Columns
      invariant 0 <= c <= model.Columns
      invariant forall j :: 0 <= j < c ==> cells[r, j] == model.Cells[startRow + r, j]
      invariant forall i, j :: 0 <= i < cells.Length0 && i != r && 0 <= j < cells.Length1 ==> cells[i, j] == old(cells[i, j])
    {
      cells[r, c] := model.Cells[startRow + r, c];
      c := c + 1;
    }
  }

  /** Cells copied from distinct positions of a sheet with no shared cell are themselves distinct. */
  lemma CopiedDistinct(model: SpreadsheetModel, cells: array2<CellModel>, startRow: nat)
    requires model.Valid()
    requires cells.Length1 == model.Columns && startRow + cells.Length0 <= model.Rows
    requires forall i, j :: 0 <= i < cells.Length0 && 0 <= j < cells.Length1 ==> cells[i, j] == model.Cells[startRow + i, j]
    ensures Distinct(cells)
  {
    forall r, c, r', c' |
      0 <= r < cells.Length0 && 0 <= c < cells.Length1 &&
      0 <= r' < cells.Length0 && 0 <= c' < cells.Length1 && (r != r' || c != c')
      ensures cells[r, c] != cells[r', c']
    {
      assert model.Cells[startRow + r, c] != model.Cells[startRow + r', c'];
    }
  }
}
