/**
 * Undo and redo as two stacks of commands. Executing a command pushes it on the
 * undo stack and forgets everything that could have been redone; Undo moves the
 * top command to the redo stack after undoing it, Redo moves it back after
 * running it again.
 */
module UndoRedo {
  import opened Cells
  import opened Commands

  /** Both stacks as values; the top of a stack is its last element. */
  datatype Stacks = Stacks(undo: seq<Command>, redo: seq<Command>)
  {
    function Count(): nat
    {
      |undo| + |redo|
    }
  }

  function AfterExecute(s: Stacks, cmd: Command): (t: Stacks)
    ensures |t.undo| > 0 && t.undo[|t.undo| - 1] == cmd && t.undo[..|t.undo| - 1] == s.undo
    ensures t.redo == []
  {
    Stacks(s.undo + [cmd], [])
  }

  /** Undo: nothing happens on an empty undo stack; otherwise its top moves onto the redo stack. */
  function AfterUndo(s: Stacks): (t: Stacks)
    ensures |s.undo| == 0 ==> t == s
    ensures |s.undo| > 0 ==> t.undo == s.undo[..|s.undo| - 1] && t.redo == s.redo + [s.undo[|s.undo| - 1]]
    ensures t.Count() == s.Count()
  {
    if |s.undo| == 0 then s
    else Stacks(s.undo[..|s.undo| - 1], s.redo + [s.undo[|s.undo| - 1]])
  }

  /** Redo: nothing happens on an empty redo stack; otherwise its top moves back onto the undo stack. */
  function AfterRedo(s: Stacks): (t: Stacks)
    ensures |s.redo| == 0 ==> t == s
    ensures |s.redo| > 0 ==> t.redo == s.redo[..|s.redo| - 1] && t.undo == s.undo + [s.redo[|s.redo| - 1]]
    ensures t.Count() == s.Count()
  {
    if |s.redo| == 0 then s
    else Stacks(s.undo + [s.redo[|s.redo| - 1]], s.redo[..|s.redo| - 1])
  }

  /** The cell the top command of a stack edits, if there is a top command. */
  function TopCell(stack: seq<Command>): set<CellModel>
  {
    if |stack| == 0 then {} else {stack[|stack| - 1].cell}
  }

  class UndoManager {
    var undoStack: seq<Command>
    var redoStack: seq<Command>

    constructor()
      ensures undoStack == [] && redoStack == []
    {
      undoStack := [];
      redoStack := [];
    }

    function Current(): Stacks
      reads this
    {
      Stacks(undoStack, redoStack)
    }

    /** Runs the command, makes it the one Undo reverts next, and empties the redo stack. */
    method Execute(command: Command)
      modifies this, command.cell
      ensures Current() == AfterExecute(old(Current()), command)
      ensures State(command.cell) == Executed(command, old(State(command.cell)))
    {
      command.Execute();
      undoStack := undoStack + [command];
      redoStack := [];
    }

    /** Undoes the most recent command, if any, and makes it the one Redo runs next. */
    method Undo()
      modifies this, TopCell(undoStack)
      ensures Current() == AfterUndo(old(Current()))
      ensures old(|undoStack|) > 0 ==>
        var cmd := old(undoStack[|undoStack| - 1]);
        State(cmd.cell) == Undone(cmd, old(State(cmd.cell)))
    {
      if |undoStack| == 0 {
        return;
      }
      var cmd := undoStack[|undoStack| - 1];
      undoStack := undoStack[..|undoStack| - 1];
      cmd.Undo();
      redoStack := redoStack + [cmd];
    }

    /** Runs the most recently undone command again, if any, and makes it undoable again. */
    method Redo()
      modifies this, TopCell(redoStack)
      ensures Current() == AfterRedo(old(Current()))
      ensures old(|redoStack|) > 0 ==>
        var cmd := old(redoStack[|redoStack| - 1]);
        State(cmd.cell) == Executed(cmd, old(State(cmd.cell)))
    {
      if |redoStack| == 0 {
        return;
      }
      var cmd := redoStack[|redoStack| - 1];
      redoStack := redoStack[..|redoStack| - 1];
      cmd.Execute();
      undoStack := undoStack + [cmd];
    }

    /** Forgets every command on both stacks; no cell changes. */
    method Clear()
      modifies this
      ensures undoStack == [] && redoStack == []
    {
      undoStack := [];
      redoStack := [];
    }
  }

  /** k undos in a row. */
  function UndoTimes(s: Stacks, k: nat): Stacks
    decreases k
  {
    if k == 0 then s else UndoTimes(AfterUndo(s), k - 1)
  }

  /** k redos in a row. */
  function RedoTimes(s: Stacks, k: nat): Stacks
    decreases k
  {
    if k == 0 then s else RedoTimes(AfterRedo(s), k - 1)
  }

  /** The commands of s, last first. */
  function Reversed(s: seq<Command>): (r: seq<Command>)
    ensures |r| == |s|
    ensures forall i :: 0 <= i < |s| ==> r[i] == s[|s| - 1 - i]
  {
    seq(|s|, i requires 0 <= i < |s| => s[|s| - 1 - i])
  }
}
