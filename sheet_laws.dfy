/** Row-major enumeration: Rows*Columns positions, each position exactly once, row after row. */
module SheetLaws {
  import opened Sheet

  lemma {:induction false} RowPositionsShape(r: nat, c: nat)
    ensures |RowPositions(r, c)| == c
    ensures forall k :: 0 <= k < c ==> RowPositions(r, c)[k] == (r, k)
    decreases c
  {
    if c > 0 {
      RowPositionsShape(r, c - 1);
    }
  }

  /** There are rows*cols positions. */
  lemma {:induction false} PositionsLength(rows: nat, cols: nat)
    ensures |Positions(rows, cols)| == rows * cols
    decreases rows
  {
    if rows > 0 {
      PositionsLength(rows - 1, cols);
      RowPositionsShape(rows - 1, cols);
      calc {
        |Positions(rows, cols)|;
        (rows - 1) * cols + cols;
        rows * cols;
      }
    }
  }

  /** The positions of the first a rows are a prefix of those of the first b rows. */
  lemma {:induction false} PositionsPrefix(a: nat, b: nat, cols: nat)
    requires a <= b
    ensures Positions(a, cols) <= Positions(b, cols)
    decreases b
  {
    if a < b {
      PositionsPrefix(a, b - 1, cols);
    }
  }

  /** Position (r, c) comes at index r*cols + c: rows one after another, each left to right. */
  lemma PositionAt(rows: nat, cols: nat, r: nat, c: nat)
    requires r < rows && c < cols
    ensures r * cols + c < |Positions(rows, cols)|
    ensures Positions(rows, cols)[r * cols + c] == (r, c)
  {
    PositionsLength(r, cols);
    PositionsPrefix(r + 1, rows, cols);
    RowPositionsShape(r, cols);
    var k := |Positions(r, cols)| + c;
    assert Positions(r + 1, cols)[k] == (r, c);
  }

  /** Every position lies inside the grid. */
  lemma {:induction false} PositionsInRange(rows: nat, cols: nat)
    ensures forall k :: 0 <= k < |Positions(rows, cols)| ==>
      Positions(rows, cols)[k].0 < rows && Positions(rows, cols)[k].1 < cols
    decreases rows
  {
    if rows > 0 {
      PositionsInRange(rows - 1, cols);
      RowPositionsShape(rows - 1, cols);
    }
  }

  /** No position is listed twice. */
  lemma {:induction false} PositionsDistinct(rows: nat, cols: nat)
    ensures forall k, k' :: 0 <= k < k' < |Positions(rows, cols)| ==> Positions(rows, cols)[k] != Positions(rows, cols)[k']
    decreases rows
  {
    if rows > 0 {
      PositionsDistinct(rows - 1, cols);
      PositionsInRange(rows - 1, cols);
      RowPositionsShape(rows - 1, cols);
      var front: seq<(nat, nat)> := Positions(rows - 1, cols);
      var back: seq<(nat, nat)> := RowPositions(rows - 1, cols);
      forall k, k' | 0 <= k < k' < |front + back|
        ensures (front + back)[k] != (front + back)[k']
      {
        if k' >= |front| && k < |front| {
          assert (front + back)[k].0 < rows - 1;
        }
      }
    }
  }
}
