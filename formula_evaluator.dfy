/**
 * Formula evaluation over the sheet's display values. Eval is a structural
 * recursion over the syntax tree; a range is summed row by row, column by
 * column. Reading a cell outside the sheet is the index error of the source
 * (Failure here), and so is an address whose row part is not an integer.
 */
module Evaluator {
  import opened Wrappers
  import opened Address
  import opened Ast
  import opened Numbers

  /** Display values by row, then column. */
  type Grid = seq<seq<string>>

  predicate InGrid(g: Grid, r: int, c: int)
  {
    0 <= r < |g| && 0 <= c < |g[r]|
  }

  /** double.TryParse(v, out d) ? d : 0 */
  function NumberOrZero(v: string, nc: NumberCulture): (d: real)
    ensures nc.parse(v).None? ==> d == 0.0
    ensures nc.parse(v).Some? ==> d == nc.parse(v).value
  {
    match nc.parse(v)
    case Some(x) => x
    case None => 0.0
  }

  /** What a cell contributes to a sum; cells outside the grid are never summed (see RangeSum). */
  function CellNumber(g: Grid, r: int, c: int, nc: NumberCulture): real
  {
    if InGrid(g, r, c) then NumberOrZero(g[r][c], nc) else 0.0
  }

  /** Sum of columns c0 .. cEnd-1 of row r. */
  function RowTotal(g: Grid, r: int, c0: int, cEnd: int, nc: NumberCulture): real
    decreases cEnd - c0
  {
    if cEnd <= c0 then 0.0 else RowTotal(g, r, c0, cEnd - 1, nc) + CellNumber(g, r, cEnd - 1, nc)
  }

  /** Sum of rows r0 .. rEnd-1, each over columns c0 .. c1. */
  function RectTotal(g: Grid, r0: int, rEnd: int, c0: int, c1: int, nc: NumberCulture): real
    decreases rEnd - r0
  {
    if rEnd <= r0 then 0.0 else RectTotal(g, r0, rEnd - 1, c0, c1, nc) + RowTotal(g, rEnd - 1, c0, c1 + 1, nc)
  }

  /** Every cell of the inclusive rectangle lies inside the grid (true of an empty rectangle). */
  predicate RectInGrid(g: Grid, r0: int, r1: int, c0: int, c1: int)
  {
    forall r, c :: r0 <= r <= r1 && c0 <= c <= c1 ==> InGrid(g, r, c)
  }

  /** The inclusive rectangle from (r0, c0) to (r1, c1); reading outside the grid fails. */
  function RectSum(g: Grid, r0: int, r1: int, c0: int, c1: int, nc: NumberCulture): Result<real>
  {
    if RectInGrid(g, r0, r1, c0, c1) then Success(RectTotal(g, r0, r1 + 1, c0, c1, nc)) else Failure
  }

  /** SumRange(a, b): the inclusive rectangle between two addresses. */
  function RangeSum(g: Grid, a: string, b: string, nc: NumberCulture): (res: Result<real>)
    ensures res.Success? <==>
      AddressOf(a).Success? && AddressOf(b).Success? &&
      RectInGrid(g, AddressOf(a).value.0, AddressOf(b).value.0, AddressOf(a).value.1, AddressOf(b).value.1)
  {
    if AddressOf(a).Failure? || AddressOf(b).Failure? then Failure
    else RectSum(g, AddressOf(a).value.0, AddressOf(b).value.0, AddressOf(a).value.1, AddressOf(b).value.1, nc)
  }

  /** The four operators; division by exactly zero and any other operator give 0. */
  function Apply(op: string, x: real, y: real): (z: real)
    ensures op == "+" ==> z - y == x
    ensures op == "-" ==> z + y == x
    ensures op == "*" && y != 0.0 ==> z / y == x
    ensures op == "/" && y != 0.0 ==> z * y == x
    ensures (op == "/" && y == 0.0) || op !in {"+", "-", "*", "/"} ==> z == 0.0
  {
    if op == "+" then x + y
    else if op == "-" then x - y
    else if op == "*" then x * y
    else if op == "/" then (if y == 0.0 then 0.0 else x / y)
    else 0.0
  }

  /** A tree with no cell reference and no range in any part: the only nodes whose evaluation can throw. */
  predicate ReadsNoCell(n: Node)
  {
    match n
    case NumberNode(_) => true
    case CellNode(_) => false
    case BinaryNode(_, left, right) => ReadsNoCell(left) && ReadsNoCell(right)
    case FunctionNode(_, arg1, arg2) => ReadsNoCell(arg1) && (arg2.Some? ==> ReadsNoCell(arg2.value))
    case RangeNode(_, _) => false
  }

  /**
   * FormulaEvaluator.Eval; a failure stands for the exception a bad address or a
   * cell outside the sheet throws, so a tree that reads no cell always has a value.
   */
  function Eval(n: Node, g: Grid, nc: NumberCulture): (res: Result<real>)
    ensures ReadsNoCell(n) ==> res.Success?
    decreases n
  {
    match n
    case NumberNode(v) => Success(v)
    case CellNode(a) =>
      (match AddressOf(a)
       case Failure => Failure
       case Success((r, c)) => if InGrid(g, r, c) then Success(NumberOrZero(g[r][c], nc)) else Failure)
    case BinaryNode(op, left, right) =>
      (match Eval(left, g, nc)
       case Failure => Failure
       case Success(x) =>
         (match Eval(right, g, nc)
          case Failure => Failure
          case Success(y) => Success(Apply(op, x, y))))
    case RangeNode(a, b) => RangeSum(g, a, b, nc)
    case FunctionNode(name, arg1, _) =>
      assert ReadsNoCell(n) ==> ReadsNoCell(arg1) && !arg1.RangeNode?;
      if name == "SUM" && arg1.RangeNode? then RangeSum(g, arg1.A, arg1.B, nc) else Success(0.0)
  }

  /** Closing one row of the nested loop: the rectangle grows by that row. */
  lemma RowDone(g: Grid, r0: int, r: int, c: int, c0: int, c1: int, nc: NumberCulture)
    requires r0 <= r && RectInGrid(g, r0, r - 1, c0, c1)
    requires c == if c0 <= c1 then c1 + 1 else c0
    requires forall k :: c0 <= k < c ==> InGrid(g, r, k)
    ensures RectInGrid(g, r0, r, c0, c1)
    ensures RectTotal(g, r0, r + 1, c0, c1, nc) == RectTotal(g, r0, r, c0, c1, nc) + RowTotal(g, r, c0, c, nc)
  {
    forall rr, cc | r0 <= rr <= r && c0 <= cc <= c1
      ensures InGrid(g, rr, cc)
    {
      if rr < r {
        assert RectInGrid(g, r0, r - 1, c0, c1);
      }
    }
  }

  /** Leaving the outer loop: every row of the rectangle has been added. */
  lemma RectDone(g: Grid, r0: int, r: int, r1: int, c0: int, c1: int, nc: NumberCulture)
    requires r == if r0 <= r1 then r1 + 1 else r0
    requires RectInGrid(g, r0, r - 1, c0, c1)
    ensures RectSum(g, r0, r1, c0, c1, nc) == Success(RectTotal(g, r0, r, c0, c1, nc))
  {
  }

  /** A cell of the rectangle that lies outside the grid makes the whole sum fail. */
  lemma OutsideFails(g: Grid, a: string, b: string, r: int, c: int, nc: NumberCulture)
    requires AddressOf(a).Success? && AddressOf(b).Success?
    requires AddressOf(a).value.0 <= r <= AddressOf(b).value.0
    requires AddressOf(a).value.1 <= c <= AddressOf(b).value.1
    requires !InGrid(g, r, c)
    ensures RangeSum(g, a, b, nc) == Failure
  {
  }

  /**
   * The evaluator bound to a sheet. It holds the sheet's display values as they
   * are when it is created: evaluation never writes to the sheet, so reading
   * them from this snapshot or from the live cells is the same.
   */
  class FormulaEvaluator {
    const sheet: Grid
    const culture: NumberCulture

    constructor(sheet: Grid, culture: NumberCulture)
      ensures this.sheet == sheet && this.culture == culture
    {
      this.sheet := sheet;
      this.culture := culture;
    }

    method SumRange(a: string, b: string) returns (res: Result<real>)
      ensures res == RangeSum(sheet, a, b, culture)
    {
      var first := Address.Parse(a);
      if first.Failure? {
        return Failure;
      }
      var last := Address.Parse(b);
      if last.Failure? {
        return Failure;
      }
      var (r0, c0) := first.value;
      var (r1, c1) := last.value;
      var s := 0.0;
      var r := r0;
      while r <= r1
        invariant r0 <= r && (r0 <= r1 ==> r <= r1 + 1) && (r1 < r0 ==> r == r0)
        invariant RectInGrid(sheet, r0, r - 1, c0, c1)
        invariant s == RectTotal(sheet, r0, r, c0, c1, culture)
      {
        ghost var above := s;
        var c := c0;
        while c <= c1
          invariant c0 <= c && (c0 <= c1 ==> c <= c1 + 1) && (c1 < c0 ==> c == c0)
          invariant forall k :: c0 <= k < c ==> InGrid(sheet, r, k)
          invariant s == above + RowTotal(sheet, r, c0, c, culture)
        {
          if !(0 <= r < |sheet| && 0 <= c < |sheet[r]|) {
            OutsideFails(sheet, a, b, r, c, culture);
            return Failure;
          }
          var parsed := culture.parse(sheet[r][c]);
          if parsed.Some? {
            s := s + parsed.value;
          }
          c := c + 1;
        }
        RowDone(sheet, r0, r, c, c0, c1, culture);
        r := r + 1;
      }
      RectDone(sheet, r0, r, r1, c0, c1, culture);
      return Success(s);
    }
  }
}
