/**
 * An in-place edit of one cell: the text the cell showed when editing began and
 * the text typed so far. The session only reads the cell.
 */
module Editing {
  import opened Wrappers
  import opened Cells

  class EditSession {
    const Cell: CellModel
    /** The cell's Text, that is its display value, when editing began. */
    const OriginalValue: string
    var CurrentValue: string

    constructor(cell: CellModel)
      ensures Cell == cell && OriginalValue == cell.Text() && OriginalValue == cell.DisplayValue
      ensures CurrentValue == OriginalValue && !HasChanged()
    {
      Cell := cell;
      OriginalValue := cell.Text();
      CurrentValue := cell.Text();
    }

    /** Records the typed text, null read as "". */
    method Update(value: Option<string>)
      modifies this`CurrentValue
      ensures CurrentValue == OrEmpty(value)
      ensures HasChanged() <==> OrEmpty(value) != OriginalValue
    {
      CurrentValue := OrEmpty(value);
    }

    function HasChanged(): (b: bool)
      reads this
      ensures b <==> CurrentValue != OriginalValue
    {
      OriginalValue != CurrentValue
    }
  }
}
