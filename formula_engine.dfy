/**
 * Recalculation of a sheet: one row-major pass over every cell. A cell that is
 * not a formula shows its raw text; a formula cell (raw text starting with '=')
 * is tokenised, parsed and evaluated against the display values as they stand
 * at that moment, and shows the result's text, or "#ERR" when any step fails.
 * The pass writes display values in place, so a formula sees this pass's values
 * for the cells before it and the previous values for the cells after it.
 */
module Engine {
  import opened Wrappers
  import opened Tokens
  import opened Lexer
  import opened Ast
  import opened Parser
  import opened Numbers
  import opened Evaluator
  import opened Cells

  const ErrorText := "#ERR"

  /** Tokenise, parse and evaluate a formula (the raw text after its '='). */
  function Compute(formula: string, g: Grid, nc: NumberCulture): Result<real>
  {
    match ParseTokens(TokenList(formula), nc)
    case Failure => Failure
    case Success(ast) => Eval(ast, g, nc)
  }

  /** What EvaluateCell stores as the display value of a cell with raw text `raw`. */
  function CellValue(raw: string, g: Grid, nc: NumberCulture): string
  {
    if !IsFormulaText(raw) then raw
    else match Compute(raw[1..], g, nc)
      case Failure => ErrorText
      case Success(v) => nc.show(v)
  }

  /** How a cell's display value is computed from its raw text and the current display values. */
  type CellRule = (string, Grid) -> string

  /** The rule EvaluateCell applies, for a given number culture. */
  function Rule(nc: NumberCulture): CellRule
  {
    (raw: string, g: Grid) => CellValue(raw, g, nc)
  }

  predicate Shaped(g: Grid, rows: nat, cols: nat)
  {
    |g| == rows && forall r :: 0 <= r < rows ==> |g[r]| == cols
  }

  /** EvaluateCell(r, c): only the display value at (r, c) changes. */
  function Visit(raws: Grid, g: Grid, r: nat, c: nat, rule: CellRule): (h: Grid)
    requires r < |g| && c < |g[r]| && r < |raws| && c < |raws[r]|
    ensures |h| == |g| && forall i :: 0 <= i < |g| ==> |h[i]| == |g[i]|
  {
    g[r := g[r][c := rule(raws[r][c], g)]]
  }

  /** The inner loop of RecalculateAll on row r, after columns 0 .. c-1. */
  function RowPass(raws: Grid, g: Grid, r: nat, c: nat, rule: CellRule): (h: Grid)
    requires r < |g| && c <= |g[r]| && r < |raws| && c <= |raws[r]|
    ensures |h| == |g| && forall i :: 0 <= i < |g| ==> |h[i]| == |g[i]|
    decreases c
  {
    if c == 0 then g else Visit(raws, RowPass(raws, g, r, c - 1, rule), r, c - 1, rule)
  }

  /** The outer loop of RecalculateAll, after rows 0 .. r-1. */
  function Pass(raws: Grid, g: Grid, rows: nat, cols: nat, r: nat, rule: CellRule): (h: Grid)
    requires Shaped(raws, rows, cols) && Shaped(g, rows, cols) && r <= rows
    ensures Shaped(h, rows, cols)
    decreases r
  {
    if r == 0 then g else RowPass(raws, Pass(raws, g, rows, cols, r - 1, rule), r - 1, cols, rule)
  }

  /** The display values just before cell (r, c) is visited; (rows, 0) is after the last cell. */
  function StateBefore(raws: Grid, g: Grid, rows: nat, cols: nat, r: nat, c: nat, rule: CellRule): (h: Grid)
    requires Shaped(raws, rows, cols) && Shaped(g, rows, cols)
    requires (r < rows && c <= cols) || (r == rows && c == 0)
    ensures Shaped(h, rows, cols)
  {
    if r == rows then Pass(raws, g, rows, cols, r, rule)
    else RowPass(raws, Pass(raws, g, rows, cols, r, rule), r, c, rule)
  }

  /** RecalculateAll: the display values after the whole pass. */
  function Recalculated(raws: Grid, g: Grid, rows: nat, cols: nat, rule: CellRule): (h: Grid)
    requires Shaped(raws, rows, cols) && Shaped(g, rows, cols)
    ensures Shaped(h, rows, cols)
  {
    Pass(raws, g, rows, cols, rows, rule)
  }

  /** Row-major order: (i, j) is visited before (r, c). */
  predicate Before(i: int, j: int, r: int, c: int)
  {
    i < r || (i == r && j < c)
  }

  /** Two grids of the same shape with the same entries are equal. */
  lemma SameGrid(g: Grid, h: Grid)
    requires |g| == |h| && forall r :: 0 <= r < |g| ==> |g[r]| == |h[r]|
    requires forall r, c :: 0 <= r < |g| && 0 <= c < |g[r]| ==> g[r][c] == h[r][c]
    ensures g == h
  {
    assert forall r :: 0 <= r < |g| ==> g[r] == h[r];
  }

  /** The formula engine of one sheet, bound to that sheet's cells. */
  class FormulaEngine {
    const cells: array2<CellModel>
    const culture: NumberCulture

    constructor(cells: array2<CellModel>, culture: NumberCulture)
      ensures this.cells == cells && this.culture == culture
    {
      this.cells := cells;
      this.culture := culture;
    }

    /** Recomputes the display value of one cell; raw contents and all other cells stay as they are. */
    method EvaluateCell(row: nat, col: nat)
      requires row < cells.Length0 && col < cells.Length1 && Distinct(cells)
      modifies cells[row, col]
      ensures RawGrid(cells) == old(RawGrid(cells))
      ensures DisplayGrid(cells) == Visit(old(RawGrid(cells)), old(DisplayGrid(cells)), row, col, Rule(culture))
    {
      ghost var raws := RawGrid(cells);
      var snapshot := DisplayGrid(cells);
      ghost var target := Visit(raws, snapshot, row, col, Rule(culture));
      var cell := cells[row, col];
      cell.DisplayValue := DisplayText(cell.RawContent, snapshot);
      assert target[row][col] == CellValue(raws[row][col], snapshot, culture);
      SameGrid(RawGrid(cells), raws);
      SameGrid(DisplayGrid(cells), target);
    }

    /**
     * The body of EvaluateCell for a cell with raw text raw: the raw text itself
     * when it is not a formula, otherwise the value's text or "#ERR".
     */
    method DisplayText(raw: string, snapshot: Grid) returns (text: string)
      ensures text == CellValue(raw, snapshot, culture)
      ensures !IsFormulaText(raw) ==> text == raw
      ensures IsFormulaText(raw) && Compute(raw[1..], snapshot, culture).Failure? ==> text == ErrorText
    {
      if !IsFormulaText(raw) {
        text := raw;
      } else {
        var formula := raw[1..];
        var tokens := Tokenize(formula);
        var parser := new FormulaParser(culture);
        var ast := parser.Parse(tokens);
        if ast.Failure? {
          text := ErrorText;
        } else {
          match Eval(ast.value, snapshot, culture)
          case Failure =>
            text := ErrorText;
          case Success(v) =>
            text := culture.show(v);
        }
      }
    }

    /** One row-major pass evaluating every cell in place. */
    method RecalculateAll()
      requires Distinct(cells)
      modifies CellSet(cells)
      ensures RawGrid(cells) == old(RawGrid(cells))
      ensures DisplayGrid(cells) ==
        Recalculated(old(RawGrid(cells)), old(DisplayGrid(cells)), cells.Length0, cells.Length1, Rule(culture))
    {
      ghost var raws := RawGrid(cells);
      ghost var g0 := DisplayGrid(cells);
      for r := 0 to cells.Length0
        invariant RawGrid(cells) == raws
        invariant DisplayGrid(cells) == StateBefore(raws, g0, cells.Length0, cells.Length1, r, 0, Rule(culture))
      {
        for c := 0 to cells.Length1
          invariant RawGrid(cells) == raws
          invariant DisplayGrid(cells) == StateBefore(raws, g0, cells.Length0, cells.Length1, r, c, Rule(culture))
        {
          EvaluateCell(r, c);
          assert StateBefore(raws, g0, cells.Length0, cells.Length1, r, c + 1, Rule(culture))
              == Visit(raws, StateBefore(raws, g0, cells.Length0, cells.Length1, r, c, Rule(culture)), r, c, Rule(culture));
        }
        assert StateBefore(raws, g0, cells.Length0, cells.Length1, r + 1, 0, Rule(culture))
            == Pass(raws, g0, cells.Length0, cells.Length1, r + 1, Rule(culture));
      }
    }
  }
}
