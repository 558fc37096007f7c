/**
 * The grid control's geometry: the running offsets of rows and columns built
 * from their heights and widths, the binary search that maps a coordinate to
 * the row or column under it, and the hit test of a point.
 */
module GridControl {
  import opened Sheet

  /** The sum of sizes[a..b]. */
  function Span(sizes: seq<real>, a: nat, b: nat): real
    requires a <= b <= |sizes|
    decreases b - a
  {
    if a == b then 0.0 else Span(sizes, a, b - 1) + sizes[b - 1]
  }

  /** The offsets of n items: entry i is the total size of the items before item i. */
  function Offsets(sizes: seq<real>): (offsets: seq<real>)
    ensures |offsets| == |sizes| + 1
    ensures offsets[0] == 0.0
    ensures forall i :: 0 <= i <= |sizes| ==> offsets[i] == Span(sizes, 0, i)
  {
    seq(|sizes| + 1, i requires 0 <= i <= |sizes| => Span(sizes, 0, i))
  }

  /** Non-decreasing. */
  predicate Sorted(s: seq<real>)
  {
    forall i, j :: 0 <= i <= j < |s| ==> s[i] <= s[j]
  }

  /** How many entries of s are at most v. */
  function CountAtMost(s: seq<real>, v: real): (n: nat)
    ensures n <= |s|
  {
    if |s| == 0 then 0 else CountAtMost(s[..|s| - 1], v) + (if s[|s| - 1] <= v then 1 else 0)
  }

  /**
   * The slot of v among sorted offsets: one less than the number of offsets
   * other than the last that are at most v, and never below 0.
   */
  function Slot(offsets: seq<real>, v: real): int
  {
    if |offsets| == 0 then 0
    else
      var n := CountAtMost(offsets[..|offsets| - 1], v);
      if n > 0 then n - 1 else 0
  }

  /** The rectangle of a hit cell in control coordinates. */
  datatype Rect = Empty | Rect(X: real, Y: real, Width: real, Height: real)

  /** The offsets of the first n sizes, in a new array: offsets[0] is 0 and each next one adds a size. */
  method BuildOffsetArray(sizes: array<real>, n: nat) returns (offsets: array<real>)
    requires n <= sizes.Length
    ensures fresh(offsets)
    ensures offsets.Length == n + 1
    ensures offsets[..] == Offsets(sizes[..n])
  {
    offsets := new real[n + 1](_ => 0.0);
    var i := 1;
    while i <= n
      invariant 1 <= i <= n + 1
      invariant forall j :: 0 <= j < i ==> offsets[j] == Span(sizes[..n], 0, j)
    {
      offsets[i] := offsets[i - 1] + sizes[i - 1];
      i := i + 1;
    }
  }

  /**
   * Binary search for the slot of value: -1 without offsets; otherwise an index
   * in 0 .. max(0, Length - 2), which for sorted offsets is Slot.
   */
  method FindIndex(offsets: array?<real>, value: real) returns (i: int)
    ensures offsets == null ==> i == -1
    ensures offsets != null ==> 0 <= i && (i == 0 || i <= offsets.Length - 2)
    ensures offsets != null && Sorted(offsets[..]) ==> i == Slot(offsets[..], value)
  {
    if offsets == null {
      return -1;
    }
    var lo := 0;
    var hi := offsets.Length - 1;
    while lo < hi
      invariant 0 <= lo <= offsets.Length && hi <= offsets.Length - 1
      invariant offsets.Length > 0 ==> lo <= hi
      invariant Sorted(offsets[..]) ==> forall j :: 0 <= j < lo ==> offsets[j] <= value
      invariant Sorted(offsets[..]) ==> forall j :: 0 <= j && hi <= j < offsets.Length - 1 ==> offsets[j] > value
      decreases hi - lo
    {
      var mid := (lo + hi) / 2;
      if offsets[mid] <= value {
        lo := mid + 1;
      } else {
        hi := mid;
      }
    }
    if Sorted(offsets[..]) && offsets.Length > 0 {
      CountSplit(offsets[..], offsets.Length - 1, lo, value);
    }
    i := if lo - 1 > 0 then lo - 1 else 0;
  }

  /** When the first k of n entries are at most v and the rest are above it, k entries count. */
  lemma {:induction false} CountSplit(s: seq<real>, n: nat, k: nat, v: real)
    requires k <= n <= |s|
    requires forall j :: 0 <= j < k ==> s[j] <= v
    requires forall j :: k <= j < n ==> s[j] > v
    ensures CountAtMost(s[..n], v) == k
    decreases n
  {
    if n > 0 {
      assert s[..n][..n - 1] == s[..n - 1];
      if k == n {
        CountSplit(s, n - 1, k - 1, v);
      } else {
        CountSplit(s, n - 1, k, v);
      }
    }
  }

  /** The entries at most v of a sorted sequence are exactly the first CountAtMost of them. */
  lemma {:induction false} CountIsPrefix(s: seq<real>, v: real)
    requires Sorted(s)
    ensures forall j :: 0 <= j < CountAtMost(s, v) ==> s[j] <= v
    ensures forall j :: CountAtMost(s, v) <= j < |s| ==> s[j] > v
    decreases |s|
  {
    if |s| > 0 {
      var front := s[..|s| - 1];
      assert Sorted(front);
      CountIsPrefix(front, v);
      if s[|s| - 1] <= v {
        assert forall j :: 0 <= j < |front| ==> s[j] <= s[|s| - 1];
      }
    }
  }

  /**
   * For sorted offsets and offsets[0] <= v < offsets[Length - 1], the slot is the
   * interval containing v.
   */
  lemma SlotBrackets(offsets: seq<real>, v: real)
    requires Sorted(offsets) && |offsets| >= 2
    requires offsets[0] <= v < offsets[|offsets| - 1]
    ensures 0 <= Slot(offsets, v) < |offsets| - 1
    ensures offsets[Slot(offsets, v)] <= v < offsets[Slot(offsets, v) + 1]
  {
    var front := offsets[..|offsets| - 1];
    assert Sorted(front);
    CountIsPrefix(front, v);
    assert front[0] == offsets[0];
  }

  /** For sorted offsets, a value below the first offset falls in slot 0. */
  lemma SlotBelowFirst(offsets: seq<real>, v: real)
    requires Sorted(offsets) && |offsets| > 0
    requires v < offsets[0]
    ensures Slot(offsets, v) == 0
  {
    var front := offsets[..|offsets| - 1];
    assert Sorted(front);
    CountIsPrefix(front, v);
    if |front| > 0 {
      assert front[0] == offsets[0];
    }
  }

  /** For sorted offsets, a value at or beyond the last offset falls in the last slot. */
  lemma SlotBeyondLast(offsets: seq<real>, v: real)
    requires Sorted(offsets) && |offsets| >= 2
    requires offsets[|offsets| - 1] <= v
    ensures Slot(offsets, v) == |offsets| - 2
  {
    var front := offsets[..|offsets| - 1];
    assert Sorted(front);
    CountSplit(front, |front|, |front|, v);
    assert front[..|front|] == front;
  }

  /** The offsets of non-negative sizes are sorted, so the binary search finds their slots. */
  lemma {:induction false} OffsetsSorted(sizes: seq<real>)
    requires forall i :: 0 <= i < |sizes| ==> sizes[i] >= 0.0
    ensures Sorted(Offsets(sizes))
  {
    var o := Offsets(sizes);
    forall i, j | 0 <= i <= j < |o|
      ensures o[i] <= o[j]
    {
      SpanGrows(sizes, 0, i, j);
    }
  }

  /** With non-negative sizes, a longer run from a weighs at least as much. */
  lemma {:induction false} SpanGrows(sizes: seq<real>, a: nat, i: nat, j: nat)
    requires a <= i <= j <= |sizes|
    requires forall k :: 0 <= k < |sizes| ==> sizes[k] >= 0.0
    ensures Span(sizes, a, i) <= Span(sizes, a, j)
    decreases j - i
  {
    if i < j {
      SpanGrows(sizes, a, i, j - 1);
    }
  }

  class ExcelLikeGrid {
    var Model: SpreadsheetModel?
    var RowOffsets: array?<real>
    var ColumnOffsets: array?<real>
    var HorizontalOffset: real
    var VerticalOffset: real

    /** Offsets exist exactly while a model is attached, one more than the model's rows and columns. */
    predicate Valid()
      reads this, Model, if Model == null then {} else {Model.Cells}
    {
      (Model == null <==> RowOffsets == null) && (Model == null <==> ColumnOffsets == null) &&
      (Model != null ==>
        Model.Valid() && RowOffsets.Length == Model.Rows + 1 && ColumnOffsets.Length == Model.Columns + 1)
    }

    /** A new grid has no model, no offsets and no scrolling. */
    constructor()
      ensures Valid() && Model == null
      ensures HorizontalOffset == 0.0 && VerticalOffset == 0.0
    {
      Model := null;
      RowOffsets := null;
      ColumnOffsets := null;
      HorizontalOffset := 0.0;
      VerticalOffset := 0.0;
    }

    /** Attaching a model builds its offsets; detaching it drops them. */
    method SetModel(value: SpreadsheetModel?)
      requires value != null ==> value.Valid()
      modifies this
      ensures Valid() && Model == value
      ensures HorizontalOffset == old(HorizontalOffset) && VerticalOffset == old(VerticalOffset)
      ensures value != null ==>
        fresh(RowOffsets) && fresh(ColumnOffsets) &&
        RowOffsets[..] == Offsets(value.RowHeights[..]) && ColumnOffsets[..] == Offsets(value.ColumnWidths[..])
    {
      Model := value;
      if Model == null {
        RowOffsets := null;
        ColumnOffsets := null;
        return;
      }
      BuildOffsets();
    }

    /** Row offsets from the row heights and column offsets from the column widths of the model. */
    method BuildOffsets()
      requires Model != null && Model.Valid()
      modifies this
      ensures Model == old(Model) && Valid()
      ensures HorizontalOffset == old(HorizontalOffset) && VerticalOffset == old(VerticalOffset)
      ensures fresh(RowOffsets) && fresh(ColumnOffsets)
      ensures RowOffsets[..] == Offsets(Model.RowHeights[..])
      ensures ColumnOffsets[..] == Offsets(Model.ColumnWidths[..])
    {
      assert Model.RowHeights[..Model.Rows] == Model.RowHeights[..];
      assert Model.ColumnWidths[..Model.Columns] == Model.ColumnWidths[..];
      RowOffsets := BuildOffsetArray(Model.RowHeights, Model.Rows);
      ColumnOffsets := BuildOffsetArray(Model.ColumnWidths, Model.Columns);
    }

    /**
     * The cell under the point (x, y) of the viewport, scrolled by the current
     * offsets: (-1, -1, Empty) without a model or when a searched index falls
     * outside the model; otherwise the cell and its rectangle. For sorted offsets
     * the cell is the slot of each scrolled coordinate.
     */
    method HitTestCell(x: real, y: real) returns (row: int, col: int, rect: Rect)
      requires Valid()
      ensures Model == null ==> row == -1 && col == -1 && rect == Empty
      ensures (row == -1 && col == -1 && rect == Empty) ||
        (Model != null && 0 <= row < Model.Rows && 0 <= col < Model.Columns &&
         rect == Rect(ColumnOffsets[col] - HorizontalOffset, RowOffsets[row] - VerticalOffset,
                      Model.ColumnWidths[col], Model.RowHeights[row]))
      ensures Model != null && Model.Rows > 0 && Model.Columns > 0 ==> row >= 0 && col >= 0
      ensures Model != null && Sorted(RowOffsets[..]) && Sorted(ColumnOffsets[..]) && row >= 0 ==>
        row == Slot(RowOffsets[..], y + VerticalOffset) && col == Slot(ColumnOffsets[..], x + HorizontalOffset)
    {
      if RowOffsets == null || ColumnOffsets == null {
        return -1, -1, Empty;
      }
      var px := x + HorizontalOffset;
      var py := y + VerticalOffset;
      row := FindIndex(RowOffsets, py);
      col := FindIndex(ColumnOffsets, px);
      if row < 0 || col < 0 || row >= Model.Rows || col >= Model.Columns {
        return -1, -1, Empty;
      }
      rect := Rect(ColumnOffsets[col] - HorizontalOffset, RowOffsets[row] - VerticalOffset,
                   Model.ColumnWidths[col], Model.RowHeights[row]);
    }
  }
}
