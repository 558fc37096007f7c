/** Properties of formula evaluation. */
module EvaluatorLaws {
  import opened Wrappers
  import opened Address
  import opened Ast
  import opened Numbers
  import opened Evaluator

  /** Summing rows r0..rEnd-1 is summing r0..m-1 and then m..rEnd-1. */
  lemma {:induction false} RectTotalSplit(g: Grid, r0: int, m: int, rEnd: int, c0: int, c1: int, nc: NumberCulture)
    requires r0 <= m <= rEnd
    ensures RectTotal(g, r0, rEnd, c0, c1, nc) == RectTotal(g, r0, m, c0, c1, nc) + RectTotal(g, m, rEnd, c0, c1, nc)
    decreases rEnd - m
  {
    if rEnd > m {
      RectTotalSplit(g, r0, m, rEnd - 1, c0, c1, nc);
    }
  }

  /** A rectangle whose columns are reversed sums to 0, however many rows it has. */
  lemma {:induction false} ReversedColumnsTotal(g: Grid, r0: int, rEnd: int, c0: int, c1: int, nc: NumberCulture)
    requires c1 < c0
    ensures RectTotal(g, r0, rEnd, c0, c1, nc) == 0.0
    decreases rEnd - r0
  {
    if rEnd > r0 {
      ReversedColumnsTotal(g, r0, rEnd - 1, c0, c1, nc);
    }
  }

  /** A reversed range (start row after end row, or start column after end column) sums to 0. */
  lemma ReversedRangeIsZero(g: Grid, a: string, b: string, nc: NumberCulture)
    requires AddressOf(a).Success? && AddressOf(b).Success?
    requires AddressOf(a).value.0 > AddressOf(b).value.0 || AddressOf(a).value.1 > AddressOf(b).value.1
    ensures Eval(RangeNode(a, b), g, nc) == Success(0.0)
  {
    var (r0, c0) := AddressOf(a).value;
    var (r1, c1) := AddressOf(b).value;
    if c1 < c0 {
      ReversedColumnsTotal(g, r0, r1 + 1, c0, c1, nc);
    }
  }

  /** The range from an address to itself is that one cell. */
  lemma SingleCellRange(g: Grid, a: string, nc: NumberCulture)
    ensures Eval(RangeNode(a, a), g, nc) == Eval(CellNode(a), g, nc)
  {
    if AddressOf(a).Success? {
      var (r, c) := AddressOf(a).value;
      assert RowTotal(g, r, c, c + 1, nc) == CellNumber(g, r, c, nc);
      assert RectTotal(g, r, r + 1, c, c, nc) == CellNumber(g, r, c, nc);
      if !InGrid(g, r, c) {
        assert !RectInGrid(g, r, r, c, c);
      }
    }
  }

  /** A cell reference fails exactly when its address is malformed or lies outside the sheet. */
  lemma CellReference(g: Grid, a: string, nc: NumberCulture)
    ensures Eval(CellNode(a), g, nc).Failure? <==>
      AddressOf(a).Failure? || !InGrid(g, AddressOf(a).value.0, AddressOf(a).value.1)
    ensures Eval(CellNode(a), g, nc).Success? ==>
      Eval(CellNode(a), g, nc).value == NumberOrZero(g[AddressOf(a).value.0][AddressOf(a).value.1], nc)
  {
  }

  /** Text that does not parse as a number counts as 0. */
  lemma NonNumericCellIsZero(g: Grid, a: string, nc: NumberCulture)
    requires AddressOf(a).Success? && InGrid(g, AddressOf(a).value.0, AddressOf(a).value.1)
    requires nc.parse(g[AddressOf(a).value.0][AddressOf(a).value.1]).None?
    ensures Eval(CellNode(a), g, nc) == Success(0.0)
  {
  }

  /** A binary node fails exactly when one of its operands fails. */
  lemma BinaryFailure(op: string, left: Node, right: Node, g: Grid, nc: NumberCulture)
    ensures Eval(BinaryNode(op, left, right), g, nc).Failure? <==>
      Eval(left, g, nc).Failure? || Eval(right, g, nc).Failure?
  {
  }

  /** Division by exactly zero gives 0. */
  lemma DivisionByZeroIsZero(left: Node, right: Node, g: Grid, nc: NumberCulture)
    requires Eval(left, g, nc).Success? && Eval(right, g, nc) == Success(0.0)
    ensures Eval(BinaryNode("/", left, right), g, nc) == Success(0.0)
  {
  }

  /** Division by anything else is real division. */
  lemma DivisionByNonZero(left: Node, right: Node, g: Grid, nc: NumberCulture)
    requires Eval(left, g, nc).Success? && Eval(right, g, nc).Success? && Eval(right, g, nc).value != 0.0
    ensures Eval(BinaryNode("/", left, right), g, nc) == Success(Eval(left, g, nc).value / Eval(right, g, nc).value)
  {
    var x, y := Eval(left, g, nc).value, Eval(right, g, nc).value;
    assert Eval(BinaryNode("/", left, right), g, nc) == Success(Apply("/", x, y));
  }

  /** An operator other than + - * / gives 0. */
  lemma UnknownOperatorIsZero(op: string, left: Node, right: Node, g: Grid, nc: NumberCulture)
    requires op != "+" && op != "-" && op != "*" && op != "/"
    requires Eval(left, g, nc).Success? && Eval(right, g, nc).Success?
    ensures Eval(BinaryNode(op, left, right), g, nc) == Success(0.0)
  {
  }

  /** Only SUM over a range computes anything; every other call is 0 and its arguments are not evaluated. */
  lemma OnlySumOfRange(name: string, arg1: Node, arg2: Option<Node>, g: Grid, nc: NumberCulture)
    ensures name == "SUM" && arg1.RangeNode? ==>
      Eval(FunctionNode(name, arg1, arg2), g, nc) == Eval(arg1, g, nc)
    ensures !(name == "SUM" && arg1.RangeNode?) ==>
      Eval(FunctionNode(name, arg1, arg2), g, nc) == Success(0.0)
  {
  }

  /** The second argument is never used. */
  lemma SecondArgumentIgnored(name: string, arg1: Node, x: Option<Node>, y: Option<Node>, g: Grid, nc: NumberCulture)
    ensures Eval(FunctionNode(name, arg1, x), g, nc) == Eval(FunctionNode(name, arg1, y), g, nc)
  {
  }

  /** The sheet with the cell at (i, j) showing v instead. */
  function WithCell(g: Grid, i: int, j: int, v: string): (h: Grid)
    requires InGrid(g, i, j)
    ensures forall r, c :: InGrid(g, r, c) <==> InGrid(h, r, c)
    ensures InGrid(h, i, j) && h[i][j] == v
    ensures forall r, c :: InGrid(g, r, c) && InGrid(h, r, c) && (r, c) != (i, j) ==> h[r][c] == g[r][c]
  {
    g[i := g[i][j := v]]
  }

  /** What one cell contributes to a sum once it shows v instead of its old text. */
  function Delta(g: Grid, i: int, j: int, v: string, nc: NumberCulture): real
    requires InGrid(g, i, j)
  {
    NumberOrZero(v, nc) - NumberOrZero(g[i][j], nc)
  }

  /** A row total counts the changed cell once when its column is in range, and not at all otherwise. */
  lemma {:induction false} RowTotalUpdate(g: Grid, i: int, j: int, v: string, r: int, c0: int, cEnd: int, nc: NumberCulture)
    requires InGrid(g, i, j)
    ensures RowTotal(WithCell(g, i, j, v), r, c0, cEnd, nc) ==
      RowTotal(g, r, c0, cEnd, nc) + (if r == i && c0 <= j < cEnd then Delta(g, i, j, v, nc) else 0.0)
    decreases cEnd - c0
  {
    if c0 < cEnd {
      RowTotalUpdate(g, i, j, v, r, c0, cEnd - 1, nc);
    }
  }

  /** A rectangle total counts the changed cell once when it lies inside, and not at all otherwise. */
  lemma {:induction false} RectTotalUpdate(g: Grid, i: int, j: int, v: string, r0: int, rEnd: int, c0: int, c1: int, nc: NumberCulture)
    requires InGrid(g, i, j)
    ensures RectTotal(WithCell(g, i, j, v), r0, rEnd, c0, c1, nc) ==
      RectTotal(g, r0, rEnd, c0, c1, nc) + (if r0 <= i < rEnd && c0 <= j <= c1 then Delta(g, i, j, v, nc) else 0.0)
    decreases rEnd - r0
  {
    if r0 < rEnd {
      RectTotalUpdate(g, i, j, v, r0, rEnd - 1, c0, c1, nc);
      RowTotalUpdate(g, i, j, v, rEnd - 1, c0, c1 + 1, nc);
    }
  }

  /**
   * Each cell of the rectangle is counted exactly once: changing one cell's text moves the
   * sum by the change in that cell's number when it lies inside, leaves the sum alone when it
   * lies outside, and never changes whether the sum succeeds.
   */
  lemma RangeSumUpdate(g: Grid, i: int, j: int, v: string, r0: int, r1: int, c0: int, c1: int, nc: NumberCulture)
    requires InGrid(g, i, j)
    ensures RectSum(WithCell(g, i, j, v), r0, r1, c0, c1, nc).Success? <==> RectSum(g, r0, r1, c0, c1, nc).Success?
    ensures RectSum(g, r0, r1, c0, c1, nc).Success? ==>
      RectSum(WithCell(g, i, j, v), r0, r1, c0, c1, nc).value ==
        RectSum(g, r0, r1, c0, c1, nc).value + (if r0 <= i <= r1 && c0 <= j <= c1 then Delta(g, i, j, v, nc) else 0.0)
  {
    RectTotalUpdate(g, i, j, v, r0, r1 + 1, c0, c1, nc);
  }

  /** A tree that reads no cell has the same value whatever the sheet holds. */
  lemma {:induction false} NoCellNoGrid(n: Node, g: Grid, h: Grid, nc: NumberCulture)
    requires ReadsNoCell(n)
    ensures Eval(n, g, nc) == Eval(n, h, nc)
  {
    match n
    case NumberNode(_) =>
    case BinaryNode(_, left, right) =>
      NoCellNoGrid(left, g, h, nc);
      NoCellNoGrid(right, g, h, nc);
    case FunctionNode(_, _, _) =>
  }
}
