/**
 * One spreadsheet cell: what the user typed (RawContent) and what is shown
 * (DisplayValue), plus the wrapping mode that decides whether text may spill
 * into the next cell. Fonts, colours, borders and hyperlinks carry no logic
 * and are not modelled.
 */
module Cells {
  import opened Wrappers

  datatype TextWrapping = NoWrap | Wrap | WrapWithOverflow

  /** A raw text is a formula when it is non-empty and starts with '='. */
  predicate IsFormulaText(raw: string)
  {
    |raw| > 0 && raw[0] == '='
  }

  class CellModel {
    var RawContent: string
    var DisplayValue: string
    var Wrapping: TextWrapping

    constructor()
      ensures RawContent == "" && DisplayValue == "" && Wrapping == NoWrap
    {
      RawContent := "";
      DisplayValue := "";
      Wrapping := NoWrap;
    }

    function IsFormula(): (b: bool)
      reads this
      ensures b <==> "=" <= RawContent
    {
      IsFormulaText(RawContent)
    }

    /** The Text getter shows the display value, not the raw content. */
    function Text(): (t: string)
      reads this
      ensures t == DisplayValue
    {
      DisplayValue
    }

    /** The Text setter: both raw and display become the value, null read as "". */
    method SetText(value: Option<string>)
      modifies this
      ensures RawContent == OrEmpty(value) && DisplayValue == OrEmpty(value)
      ensures Text() == OrEmpty(value)
      ensures Wrapping == old(Wrapping)
    {
      RawContent := OrEmpty(value);
      DisplayValue := OrEmpty(value);
    }

    /** Used by undo/redo; the same effect as the Text setter. */
    method SetTextInternal(newText: Option<string>)
      modifies this
      ensures RawContent == OrEmpty(newText) && DisplayValue == OrEmpty(newText)
      ensures Text() == OrEmpty(newText)
      ensures Wrapping == old(Wrapping)
    {
      RawContent := OrEmpty(newText);
      DisplayValue := OrEmpty(newText);
    }

    function IsEmpty(): (b: bool)
      reads this
      ensures b <==> |RawContent| == 0
    {
      RawContent == ""
    }

    /** Text may spill into neighbouring cells only when unwrapped and something is shown. */
    function CanOverflow(): (b: bool)
      reads this
      ensures b <==> Wrapping == NoWrap && |DisplayValue| > 0
    {
      Wrapping == NoWrap && DisplayValue != ""
    }
  }

  /** A cell whose raw text is empty is neither a formula nor able to hold one. */
  lemma EmptyIsNotFormula(c: CellModel)
    ensures c.IsEmpty() ==> !c.IsFormula()
  {
  }

  /** Every cell object of a two-dimensional cell array. */
  function CellSet(cells: array2<CellModel>): set<CellModel>
    reads cells
  {
    set r, c | 0 <= r < cells.Length0 && 0 <= c < cells.Length1 :: cells[r, c]
  }

  /** No cell object appears at two positions. */
  predicate Distinct(cells: array2<CellModel>)
    reads cells
  {
    forall r, c, r', c' ::
      (0 <= r < cells.Length0 && 0 <= c < cells.Length1 &&
       0 <= r' < cells.Length0 && 0 <= c' < cells.Length1 && (r != r' || c != c'))
      ==> cells[r, c] != cells[r', c']
  }

  /** A snapshot of all display values, row by row. */
  function DisplayGrid(cells: array2<CellModel>): (g: seq<seq<string>>)
    reads cells, CellSet(cells)
    ensures |g| == cells.Length0
    ensures forall r :: 0 <= r < |g| ==> |g[r]| == cells.Length1
    ensures forall r, c :: 0 <= r < cells.Length0 && 0 <= c < cells.Length1 ==> g[r][c] == cells[r, c].DisplayValue
  {
    seq(cells.Length0, r requires 0 <= r < cells.Length0 reads cells, CellSet(cells) =>
      seq(cells.Length1, c requires 0 <= c < cells.Length1 reads cells, CellSet(cells) => cells[r, c].DisplayValue))
  }

  /** A snapshot of all raw contents, row by row. */
  function RawGrid(cells: array2<CellModel>): (g: seq<seq<string>>)
    reads cells, CellSet(cells)
    ensures |g| == cells.Length0
    ensures forall r :: 0 <= r < |g| ==> |g[r]| == cells.Length1
    ensures forall r, c :: 0 <= r < cells.Length0 && 0 <= c < cells.Length1 ==> g[r][c] == cells[r, c].RawContent
  {
    seq(cells.Length0, r requires 0 <= r < cells.Length0 reads cells, CellSet(cells) =>
      seq(cells.Length1, c requires 0 <= c < cells.Length1 reads cells, CellSet(cells) => cells[r, c].RawContent))
  }
}
