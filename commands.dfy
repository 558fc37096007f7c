/**
 * The two undoable cell commands. Both remember a cell, the text it held before
 * the edit and the text the edit sets; CellEdit goes through the cell's Text
 * setter, CellTextChange through SetTextInternal. Neither recalculates formulas,
 * so a text starting with '=' is shown as typed until the next recalculation.
 */
module Commands {
  import opened Wrappers
  import opened Cells

  /** The part of a cell a command can see or change, as a value. */
  datatype CellState = CellState(raw: string, display: string, wrapping: TextWrapping)

  datatype Command =
    | CellEdit(cell: CellModel, oldValue: Option<string>, newValue: Option<string>)
    | CellTextChange(cell: CellModel, oldText: Option<string>, newText: Option<string>)
  {
    /** The text the command sets when executed. */
    function Target(): Option<string>
    {
      if CellEdit? then newValue else newText
    }

    /** The text the command puts back when undone. */
    function Original(): Option<string>
    {
      if CellEdit? then oldValue else oldText
    }

    method Execute()
      modifies cell
      ensures State(cell) == Executed(this, old(State(cell)))
      ensures cell.Text() == OrEmpty(Target())
    {
      if CellEdit? {
        cell.SetText(newValue);
      } else {
        cell.SetTextInternal(newText);
      }
    }

    method Undo()
      modifies cell
      ensures State(cell) == Undone(this, old(State(cell)))
      ensures cell.Text() == OrEmpty(Original())
    {
      if CellEdit? {
        cell.SetText(oldValue);
      } else {
        cell.SetTextInternal(oldText);
      }
    }
  }

  function State(cell: CellModel): CellState
    reads cell
  {
    CellState(cell.RawContent, cell.DisplayValue, cell.Wrapping)
  }

  /**
   * The cell after the command runs: raw and display text both become the
   * command's new text, null read as ""; the wrapping mode is kept.
   */
  function Executed(cmd: Command, s: CellState): (t: CellState)
    ensures t.raw == t.display == OrEmpty(cmd.Target())
    ensures t.wrapping == s.wrapping
  {
    CellState(OrEmpty(cmd.Target()), OrEmpty(cmd.Target()), s.wrapping)
  }

  /** The cell after the command is undone: both texts become the remembered old text. */
  function Undone(cmd: Command, s: CellState): (t: CellState)
    ensures t.raw == t.display == OrEmpty(cmd.Original())
    ensures t.wrapping == s.wrapping
  {
    CellState(OrEmpty(cmd.Original()), OrEmpty(cmd.Original()), s.wrapping)
  }

  /** Running a command twice leaves the cell as running it once. */
  lemma ExecuteIdempotent(cmd: Command, s: CellState)
    ensures Executed(cmd, Executed(cmd, s)) == Executed(cmd, s)
  {
  }

  /** Execute then Undo leaves the old text, whatever the cell held before. */
  lemma UndoAfterExecute(cmd: Command, s: CellState)
    ensures Undone(cmd, Executed(cmd, s)) == Undone(cmd, s)
    ensures Undone(cmd, Executed(cmd, s)).raw == OrEmpty(cmd.Original())
  {
  }

  /** Undo then Execute gives the same cell as executing directly. */
  lemma ExecuteAfterUndo(cmd: Command, s: CellState)
    ensures Executed(cmd, Undone(cmd, s)) == Executed(cmd, s)
  {
  }
}
