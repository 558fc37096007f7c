/** What one recalculation pass does to each cell. */
module EngineLaws {
  import opened Wrappers
  import opened Evaluator
  import opened Numbers
  import opened Cells
  import opened Engine
  import ParserLaws

  /** Visiting (r, c) changes that display value and no other. */
  lemma VisitEffect(raws: Grid, g: Grid, r: nat, c: nat, rule: CellRule)
    requires r < |g| && c < |g[r]| && r < |raws| && c < |raws[r]|
    ensures forall i, j :: 0 <= i < |g| && 0 <= j < |g[i]| ==>
      Visit(raws, g, r, c, rule)[i][j] == (if i == r && j == c then rule(raws[r][c], g) else g[i][j])
  {
  }

  /** The state before (r, c+1) is the state before (r, c) with (r, c) visited. */
  lemma NextColumn(raws: Grid, g: Grid, rows: nat, cols: nat, r: nat, c: nat, rule: CellRule)
    requires Shaped(raws, rows, cols) && Shaped(g, rows, cols) && r < rows && c < cols
    ensures StateBefore(raws, g, rows, cols, r, c + 1, rule)
         == Visit(raws, StateBefore(raws, g, rows, cols, r, c, rule), r, c, rule)
  {
  }

  /** The state before the first cell of row r+1 is the state after the last cell of row r. */
  lemma NextRow(raws: Grid, g: Grid, rows: nat, cols: nat, r: nat, rule: CellRule)
    requires Shaped(raws, rows, cols) && Shaped(g, rows, cols) && r < rows
    ensures StateBefore(raws, g, rows, cols, r + 1, 0, rule) == StateBefore(raws, g, rows, cols, r, cols, rule)
  {
    assert StateBefore(raws, g, rows, cols, r + 1, 0, rule) == Pass(raws, g, rows, cols, r + 1, rule);
  }

  /** The value cell (i, j) computes on its visit. */
  function Computed(raws: Grid, g: Grid, rows: nat, cols: nat, i: nat, j: nat, rule: CellRule): string
    requires Shaped(raws, rows, cols) && Shaped(g, rows, cols) && i < rows && j < cols
  {
    rule(raws[i][j], StateBefore(raws, g, rows, cols, i, j, rule))
  }

  /**
   * Just before (r, c) is visited, every cell visited earlier holds the value it
   * computed on its visit, and every other cell still holds its value from before the pass.
   */
  predicate SeenBefore(raws: Grid, g: Grid, rows: nat, cols: nat, r: nat, c: nat, rule: CellRule)
  {
    Shaped(raws, rows, cols) && Shaped(g, rows, cols) &&
    ((r < rows && c <= cols) || (r == rows && c == 0)) &&
    forall i, j {:trigger StateBefore(raws, g, rows, cols, r, c, rule)[i][j]} :: 0 <= i < rows && 0 <= j < cols ==>
      StateBefore(raws, g, rows, cols, r, c, rule)[i][j] ==
        (if Before(i, j, r, c) then Computed(raws, g, rows, cols, i, j, rule) else g[i][j])
  }

  lemma ColumnStep(raws: Grid, g: Grid, rows: nat, cols: nat, r: nat, c: nat, rule: CellRule)
    requires Shaped(raws, rows, cols) && Shaped(g, rows, cols) && r < rows && c < cols
    requires SeenBefore(raws, g, rows, cols, r, c, rule)
    ensures SeenBefore(raws, g, rows, cols, r, c + 1, rule)
  {
    var prev := StateBefore(raws, g, rows, cols, r, c, rule);
    var now := StateBefore(raws, g, rows, cols, r, c + 1, rule);
    NextColumn(raws, g, rows, cols, r, c, rule);
    VisitEffect(raws, prev, r, c, rule);
    forall i, j | 0 <= i < rows && 0 <= j < cols
      ensures now[i][j] == (if Before(i, j, r, c + 1) then Computed(raws, g, rows, cols, i, j, rule) else g[i][j])
    {
      if i == r && j == c {
        assert now[i][j] == Computed(raws, g, rows, cols, i, j, rule);
      } else {
        assert now[i][j] == prev[i][j];
      }
    }
  }

  lemma RowStep(raws: Grid, g: Grid, rows: nat, cols: nat, r: nat, rule: CellRule)
    requires Shaped(raws, rows, cols) && Shaped(g, rows, cols) && r < rows
    requires SeenBefore(raws, g, rows, cols, r, cols, rule)
    ensures SeenBefore(raws, g, rows, cols, r + 1, 0, rule)
  {
    NextRow(raws, g, rows, cols, r, rule);
    var now := StateBefore(raws, g, rows, cols, r + 1, 0, rule);
    forall i, j | 0 <= i < rows && 0 <= j < cols
      ensures now[i][j] == (if Before(i, j, r + 1, 0) then Computed(raws, g, rows, cols, i, j, rule) else g[i][j])
    {
      assert Before(i, j, r + 1, 0) == Before(i, j, r, cols);
    }
  }

  lemma NothingSeenYet(raws: Grid, g: Grid, rows: nat, cols: nat, rule: CellRule)
    requires Shaped(raws, rows, cols) && Shaped(g, rows, cols)
    ensures SeenBefore(raws, g, rows, cols, 0, 0, rule)
  {
    assert StateBefore(raws, g, rows, cols, 0, 0, rule) == g;
  }

  /** Along row r, from its first cell to column c. */
  lemma {:induction false} AlongRow(raws: Grid, g: Grid, rows: nat, cols: nat, r: nat, c: nat, rule: CellRule)
    requires Shaped(raws, rows, cols) && Shaped(g, rows, cols) && r < rows && c <= cols
    requires SeenBefore(raws, g, rows, cols, r, 0, rule)
    ensures SeenBefore(raws, g, rows, cols, r, c, rule)
  {
    var k := 0;
    while k < c
      invariant k <= c && SeenBefore(raws, g, rows, cols, r, k, rule)
    {
      ColumnStep(raws, g, rows, cols, r, k, rule);
      k := k + 1;
    }
  }

  /** Row by row, up to the first cell of row r. */
  lemma {:induction false} DownRows(raws: Grid, g: Grid, rows: nat, cols: nat, r: nat, rule: CellRule)
    requires Shaped(raws, rows, cols) && Shaped(g, rows, cols) && r <= rows
    ensures SeenBefore(raws, g, rows, cols, r, 0, rule)
  {
    NothingSeenYet(raws, g, rows, cols, rule);
    var k := 0;
    while k < r
      invariant k <= r && SeenBefore(raws, g, rows, cols, k, 0, rule)
    {
      AlongRow(raws, g, rows, cols, k, cols, rule);
      RowStep(raws, g, rows, cols, k, rule);
      k := k + 1;
    }
  }

  lemma StateBeforeCells(raws: Grid, g: Grid, rows: nat, cols: nat, r: nat, c: nat, rule: CellRule)
    requires Shaped(raws, rows, cols) && Shaped(g, rows, cols)
    requires (r < rows && c <= cols) || (r == rows && c == 0)
    ensures SeenBefore(raws, g, rows, cols, r, c, rule)
  {
    DownRows(raws, g, rows, cols, r, rule);
    if r < rows {
      AlongRow(raws, g, rows, cols, r, c, rule);
    }
  }

  /** Each cell is visited once: its final value is the one computed on its visit. */
  lemma RecalculatedCell(raws: Grid, g: Grid, rows: nat, cols: nat, i: nat, j: nat, rule: CellRule)
    requires Shaped(raws, rows, cols) && Shaped(g, rows, cols) && i < rows && j < cols
    ensures Recalculated(raws, g, rows, cols, rule)[i][j] ==
      rule(raws[i][j], StateBefore(raws, g, rows, cols, i, j, rule))
  {
    StateBeforeCells(raws, g, rows, cols, rows, 0, rule);
    assert Recalculated(raws, g, rows, cols, rule) == StateBefore(raws, g, rows, cols, rows, 0, rule);
  }

  /**
   * The sheet a formula at (i, j) is evaluated against: final values for the
   * cells before it in row-major order, previous values for itself and the cells after.
   */
  lemma FormulaSeesEarlierCells(raws: Grid, g: Grid, rows: nat, cols: nat, i: nat, j: nat, rule: CellRule)
    requires Shaped(raws, rows, cols) && Shaped(g, rows, cols) && i < rows && j < cols
    ensures forall p, q :: 0 <= p < rows && 0 <= q < cols ==>
      StateBefore(raws, g, rows, cols, i, j, rule)[p][q] ==
        (if Before(p, q, i, j) then Recalculated(raws, g, rows, cols, rule)[p][q] else g[p][q])
  {
    StateBeforeCells(raws, g, rows, cols, i, j, rule);
    forall p, q | 0 <= p < rows && 0 <= q < cols && Before(p, q, i, j)
      ensures StateBefore(raws, g, rows, cols, i, j, rule)[p][q] == Recalculated(raws, g, rows, cols, rule)[p][q]
    {
      RecalculatedCell(raws, g, rows, cols, p, q, rule);
    }
  }

  /** After recalculation a cell that is not a formula shows its raw text. */
  lemma NonFormulaShowsRaw(raws: Grid, g: Grid, rows: nat, cols: nat, i: nat, j: nat, nc: NumberCulture)
    requires Shaped(raws, rows, cols) && Shaped(g, rows, cols) && i < rows && j < cols
    requires !IsFormulaText(raws[i][j])
    ensures Recalculated(raws, g, rows, cols, Rule(nc))[i][j] == raws[i][j]
  {
    RecalculatedCell(raws, g, rows, cols, i, j, Rule(nc));
  }

  /**
   * A formula cell shows "#ERR" when tokenising, parsing or evaluating its text
   * after '=' fails, and the result's text otherwise; no other cell is affected
   * by that failure, since each cell's value depends only on its own visit.
   */
  lemma FormulaCellValue(raws: Grid, g: Grid, rows: nat, cols: nat, i: nat, j: nat, nc: NumberCulture)
    requires Shaped(raws, rows, cols) && Shaped(g, rows, cols) && i < rows && j < cols
    requires IsFormulaText(raws[i][j])
    ensures var seen := StateBefore(raws, g, rows, cols, i, j, Rule(nc));
      match Compute(raws[i][j][1..], seen, nc)
      case Failure => Recalculated(raws, g, rows, cols, Rule(nc))[i][j] == ErrorText
      case Success(v) => Recalculated(raws, g, rows, cols, Rule(nc))[i][j] == nc.show(v)
  {
    RecalculatedCell(raws, g, rows, cols, i, j, Rule(nc));
  }

  /** The cell "=" shows "#ERR": the empty formula does not parse. */
  lemma EmptyFormulaShowsError(g: Grid, nc: NumberCulture)
    ensures CellValue("=", g, nc) == ErrorText
  {
    ParserLaws.EmptyFormulaFails(nc);
    assert "="[1..] == "";
  }

  /** The cell "=1+" shows "#ERR": an operator without a right operand does not parse. */
  lemma DanglingOperatorShowsError(g: Grid, nc: NumberCulture)
    ensures CellValue("=1+", g, nc) == ErrorText
  {
    ParserLaws.DanglingOperatorFails(nc);
    assert "=1+"[1..] == "1+";
  }

  /** The cell "=(1" shows "#ERR": a parenthesis that is never closed does not parse. */
  lemma UnclosedParenthesisShowsError(g: Grid, nc: NumberCulture)
    ensures CellValue("=(1", g, nc) == ErrorText
  {
    ParserLaws.UnclosedParenthesisFails(nc);
    assert "=(1"[1..] == "(1";
  }
}
