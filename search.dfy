/**
 * Find-all over the sheets of a workbook. A hit is a non-empty cell of a visible
 * sheet whose shown text equals the query (whole-cell mode) or contains it, with
 * or without regard to letter case. Hits come sheet by sheet, row by row, left to right.
 */
module Search {
  import opened Wrappers
  import opened Strings
  import opened Cells
  import opened Evaluator
  import opened Results
  import opened Sheet

  /** What the search sees of a sheet: its name, whether it is shown, and the shown text of every cell. */
  datatype SheetView = SheetView(Name: string, IsVisible: bool, Texts: Grid)

  /** A hit: sheet index, row, column. */
  type Hit = (nat, nat, nat)

  /** string.IsNullOrWhiteSpace. */
  predicate BlankQuery(query: Option<string>)
  {
    query.None? || forall i :: 0 <= i < |query.value| ==> IsWhiteSpace(query.value[i])
  }

  /** The text as compared: unchanged for an ordinal comparison, upper-cased when case is ignored. */
  function Folded(s: string, matchCase: bool): (r: string)
    ensures |r| == |s|
  {
    if matchCase then s else Upper(s)
  }

  /** pattern occurs in text at some position (String.IndexOf(pattern) >= 0). */
  function Occurs(text: string, pattern: string): bool
    decreases |text|
  {
    if |pattern| > |text| then false
    else text[..|pattern|] == pattern || (|text| > 0 && Occurs(text[1..], pattern))
  }

  /** Whether one cell's text is a hit for the query. */
  predicate Matches(text: string, query: string, matchCase: bool, matchWholeCell: bool)
  {
    if matchWholeCell then Folded(text, matchCase) == Folded(query, matchCase)
    else Occurs(Folded(text, matchCase), Folded(query, matchCase))
  }

  /** The hits of the first c cells of row r of sheet i. */
  function CellHits(v: SheetView, i: nat, query: string, matchCase: bool, matchWholeCell: bool, r: nat, c: nat): seq<Hit>
    requires r < |v.Texts| && c <= |v.Texts[r]|
  {
    if c == 0 then []
    else
      var text := v.Texts[r][c - 1];
      CellHits(v, i, query, matchCase, matchWholeCell, r, c - 1) +
      (if text != "" && Matches(text, query, matchCase, matchWholeCell) then [(i, r, c - 1)] else [])
  }

  /** The hits of the first r rows of sheet i. */
  function RowHits(v: SheetView, i: nat, query: string, matchCase: bool, matchWholeCell: bool, r: nat): seq<Hit>
    requires r <= |v.Texts|
  {
    if r == 0 then []
    else
      RowHits(v, i, query, matchCase, matchWholeCell, r - 1) +
      CellHits(v, i, query, matchCase, matchWholeCell, r - 1, |v.Texts[r - 1]|)
  }

  /** The hits of sheet i; a hidden sheet has none. */
  function SheetHits(v: SheetView, i: nat, query: string, matchCase: bool, matchWholeCell: bool): seq<Hit>
  {
    if v.IsVisible then RowHits(v, i, query, matchCase, matchWholeCell, |v.Texts|) else []
  }

  /** The hits of the first k sheets. */
  function Hits(views: seq<SheetView>, query: string, matchCase: bool, matchWholeCell: bool, k: nat): seq<Hit>
    requires k <= |views|
  {
    if k == 0 then []
    else
      Hits(views, query, matchCase, matchWholeCell, k - 1) +
      SheetHits(views[k - 1], k - 1, query, matchCase, matchWholeCell)
  }

  /** The cell a hit names lies inside its sheet. */
  predicate Inside(views: seq<SheetView>, h: Hit)
  {
    h.0 < |views| && h.1 < |views[h.0].Texts| && h.2 < |views[h.0].Texts[h.1]|
  }

  /** The result reported for a hit: sheet name, position and the cell's text. */
  function ResultOf(views: seq<SheetView>, h: Hit): SearchResult
    requires Inside(views, h)
  {
    SearchResult(views[h.0].Name, h.1, h.2, views[h.0].Texts[h.1][h.2])
  }

  function ResultsOf(views: seq<SheetView>, hits: seq<Hit>): (rs: seq<SearchResult>)
    requires forall k :: 0 <= k < |hits| ==> Inside(views, hits[k])
    ensures |rs| == |hits|
    ensures forall k :: 0 <= k < |hits| ==> rs[k] == ResultOf(views, hits[k])
  {
    seq(|hits|, k requires 0 <= k < |hits| => ResultOf(views, hits[k]))
  }

  /** The view of one sheet. */
  function ViewOf(sheet: SpreadsheetModel): SheetView
    reads sheet, sheet.Cells, CellSet(sheet.Cells)
  {
    SheetView(sheet.Name, sheet.IsVisible, DisplayGrid(sheet.Cells))
  }

  /** Every object the search reads: the sheets, their cell arrays and their cells. */
  function Footprint(sheets: seq<SpreadsheetModel>): set<object>
    reads set i | 0 <= i < |sheets| :: sheets[i]
    reads set i | 0 <= i < |sheets| :: sheets[i].Cells
  {
    (set i | 0 <= i < |sheets| :: sheets[i] as object) +
    (set i | 0 <= i < |sheets| :: sheets[i].Cells as object) +
    (set i, r, c | 0 <= i < |sheets| && 0 <= r < sheets[i].Cells.Length0 && 0 <= c < sheets[i].Cells.Length1
       :: sheets[i].Cells[r, c] as object)
  }

  function Views(sheets: seq<SpreadsheetModel>): (vs: seq<SheetView>)
    reads Footprint(sheets)
    ensures |vs| == |sheets|
    ensures forall i :: 0 <= i < |sheets| ==> vs[i] == ViewOf(sheets[i])
  {
    seq(|sheets|, i requires 0 <= i < |sheets| reads Footprint(sheets) => ViewOf(sheets[i]))
  }
}
