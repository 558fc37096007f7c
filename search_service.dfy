/** The search service over the sheets of a workbook. */
module SearchService {
  import opened Wrappers
  import opened Cells
  import opened Sheet
  import opened Results
  import opened Search
  import opened SearchLaws

  /** What find-all reports for the given sheet views: nothing for a blank query, otherwise one result per hit. */
  function Found(views: seq<SheetView>, query: Option<string>, matchCase: bool, matchWholeCell: bool): seq<SearchResult>
  {
    if BlankQuery(query) then []
    else
      HitsInside(views, query.value, matchCase, matchWholeCell, |views|);
      ResultsOf(views, Hits(views, query.value, matchCase, matchWholeCell, |views|))
  }

  lemma ResultsOfAppend(views: seq<SheetView>, a: seq<Hit>, b: seq<Hit>)
    requires forall h :: h in a ==> Inside(views, h)
    requires forall h :: h in b ==> Inside(views, h)
    ensures forall h :: h in a + b ==> Inside(views, h)
    ensures ResultsOf(views, a + b) == ResultsOf(views, a) + ResultsOf(views, b)
  {
  }

  class SpreadsheetSearchService {
    const sheets: seq<SpreadsheetModel>

    constructor(sheets: seq<SpreadsheetModel>)
      ensures this.sheets == sheets
    {
      this.sheets := sheets;
    }

    /**
     * Every non-empty matching cell of every visible sheet, sheet by sheet, row by
     * row, left to right. The search changes nothing, so it reads the sheets
     * through one view of them taken when it starts.
     */
    method FindAll(query: Option<string>, matchCase: bool, matchWholeCell: bool) returns (results: seq<SearchResult>)
      ensures results == Found(old(Views(sheets)), query, matchCase, matchWholeCell)
    {
      var views := Views(sheets);
      results := FindIn(views, query, matchCase, matchWholeCell);
    }
  }

  /** FindAll over a view of the sheets. */
  method FindIn(views: seq<SheetView>, query: Option<string>, matchCase: bool, matchWholeCell: bool)
    returns (results: seq<SearchResult>)
    ensures results == Found(views, query, matchCase, matchWholeCell)
  {
    results := [];
    if BlankQuery(query) {
      return;
    }
    var q := query.value;
    ghost var hits: seq<Hit> := [];
    var s := 0;
    while s < |views|
      invariant 0 <= s <= |views|
      invariant hits == Hits(views, q, matchCase, matchWholeCell, s)
      invariant forall h :: h in hits ==> Inside(views, h)
      invariant results == ResultsOf(views, hits)
    {
      var found;
      ghost var sheetHits;
      found, sheetHits := ScanSheet(views, s, q, matchCase, matchWholeCell);
      ResultsOfAppend(views, hits, sheetHits);
      hits := hits + sheetHits;
      results := results + found;
      s := s + 1;
    }
  }

  /** The body of FindAll's loop over the sheets: the hits of sheet number s, row by row. */
  method ScanSheet(views: seq<SheetView>, s: nat, q: string, matchCase: bool, matchWholeCell: bool)
    returns (found: seq<SearchResult>, ghost sheetHits: seq<Hit>)
    requires s < |views|
    ensures sheetHits == SheetHits(views[s], s, q, matchCase, matchWholeCell)
    ensures forall h :: h in sheetHits ==> Inside(views, h)
    ensures found == ResultsOf(views, sheetHits)
  {
    var sheet := views[s];
    found, sheetHits := [], [];
    if sheet.IsVisible {
      var r := 0;
      while r < |sheet.Texts|
        invariant 0 <= r <= |sheet.Texts|
        invariant sheetHits == RowHits(sheet, s, q, matchCase, matchWholeCell, r)
        invariant forall h :: h in sheetHits ==> Inside(views, h)
        invariant found == ResultsOf(views, sheetHits)
      {
        var rowFound;
        ghost var rowHits;
        rowFound, rowHits := ScanRow(views, s, r, q, matchCase, matchWholeCell);
        ResultsOfAppend(views, sheetHits, rowHits);
        sheetHits := sheetHits + rowHits;
        found := found + rowFound;
        r := r + 1;
      }
    }
  }

  /** The inner loop of FindAll: the hits of row r of sheet number s, left to right. */
  method ScanRow(views: seq<SheetView>, s: nat, r: nat, q: string, matchCase: bool, matchWholeCell: bool)
    returns (found: seq<SearchResult>, ghost rowHits: seq<Hit>)
    requires s < |views| && r < |views[s].Texts|
    ensures rowHits == CellHits(views[s], s, q, matchCase, matchWholeCell, r, |views[s].Texts[r]|)
    ensures forall h :: h in rowHits ==> Inside(views, h)
    ensures found == ResultsOf(views, rowHits)
  {
    var sheet := views[s];
    var row := sheet.Texts[r];
    found, rowHits := [], [];
    var c := 0;
    while c < |row|
      invariant 0 <= c <= |row|
      invariant rowHits == CellHits(sheet, s, q, matchCase, matchWholeCell, r, c)
      invariant forall h :: h in rowHits ==> Inside(views, h)
      invariant found == ResultsOf(views, rowHits)
    {
      var text := row[c];
      if text != "" && Matches(text, q, matchCase, matchWholeCell) {
        var h: Hit := (s, r, c);
        assert ResultsOf(views, rowHits + [h]) == ResultsOf(views, rowHits) + [SearchResult(sheet.Name, r, c, text)];
        rowHits := rowHits + [h];
        found := found + [SearchResult(sheet.Name, r, c, text)];
      }
      c := c + 1;
    }
  }
}
