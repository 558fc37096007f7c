/** How Execute, Undo and Redo compose. */
module UndoLaws {
  import opened Commands
  import opened UndoRedo

  /** Undo followed by Redo restores both stacks. */
  lemma UndoThenRedo(s: Stacks)
    requires |s.undo| > 0
    ensures AfterRedo(AfterUndo(s)) == s
  {
    assert s.undo[..|s.undo| - 1] + [s.undo[|s.undo| - 1]] == s.undo;
  }

  /** Redo followed by Undo restores both stacks. */
  lemma RedoThenUndo(s: Stacks)
    requires |s.redo| > 0
    ensures AfterUndo(AfterRedo(s)) == s
  {
    assert s.redo[..|s.redo| - 1] + [s.redo[|s.redo| - 1]] == s.redo;
  }

  /** After a new command nothing can be redone, and undoing it leaves only that command to redo. */
  lemma ExecuteForgetsRedo(s: Stacks, cmd: Command)
    ensures AfterRedo(AfterExecute(s, cmd)) == AfterExecute(s, cmd)
    ensures AfterUndo(AfterExecute(s, cmd)) == Stacks(s.undo, [cmd])
  {
  }

  lemma ReversedLast(x: seq<Command>)
    requires |x| > 0
    ensures Reversed(x) == [x[|x| - 1]] + Reversed(x[..|x| - 1])
  {
    var a := Reversed(x);
    var b := [x[|x| - 1]] + Reversed(x[..|x| - 1]);
    forall i | 0 <= i < |a|
      ensures a[i] == b[i]
    {
      if i > 0 {
        assert b[i] == Reversed(x[..|x| - 1])[i - 1];
      }
    }
  }

  lemma ReversedTwice(x: seq<Command>)
    ensures Reversed(Reversed(x)) == x
  {
    var a := Reversed(Reversed(x));
    forall i | 0 <= i < |x|
      ensures a[i] == x[i]
    {
    }
  }

  /** k undos move the top k commands, most recent first, onto the redo stack. */
  lemma {:induction false} UndoTimesMoves(s: Stacks, k: nat)
    requires k <= |s.undo|
    ensures UndoTimes(s, k) == Stacks(s.undo[..|s.undo| - k], s.redo + Reversed(s.undo[|s.undo| - k..]))
    decreases k
  {
    var n := |s.undo|;
    if k > 0 {
      var top := s.undo[n - 1];
      var t := Stacks(s.undo[..n - 1], s.redo + [top]);
      assert AfterUndo(s) == t;
      UndoTimesMoves(t, k - 1);
      var tail := s.undo[n - k..];
      ReversedLast(tail);
      assert tail[..k - 1] == t.undo[n - k..];
      assert t.undo[..n - k] == s.undo[..n - k];
    }
  }

  /** k redos move the top k undone commands, most recently undone first, back onto the undo stack. */
  lemma {:induction false} RedoTimesMoves(s: Stacks, k: nat)
    requires k <= |s.redo|
    ensures RedoTimes(s, k) == Stacks(s.undo + Reversed(s.redo[|s.redo| - k..]), s.redo[..|s.redo| - k])
    decreases k
  {
    var n := |s.redo|;
    if k > 0 {
      var top := s.redo[n - 1];
      var t := Stacks(s.undo + [top], s.redo[..n - 1]);
      assert AfterRedo(s) == t;
      RedoTimesMoves(t, k - 1);
      var tail := s.redo[n - k..];
      ReversedLast(tail);
      assert tail[..k - 1] == t.redo[n - k..];
      assert t.redo[..n - k] == s.redo[..n - k];
    }
  }

  /** Undoing k commands and then redoing k restores both stacks. */
  lemma UndoRedoTimes(s: Stacks, k: nat)
    requires k <= |s.undo|
    ensures RedoTimes(UndoTimes(s, k), k) == s
  {
    var n := |s.undo|;
    var kept, moved := s.undo[..n - k], s.undo[n - k..];
    assert |moved| == k;
    assert kept + moved == s.undo;
    UndoTimesMoves(s, k);
    RedoMovesBack(kept, s.redo, moved);
    assert UndoTimes(s, k) == Stacks(kept, s.redo + Reversed(moved));
  }

  /** Redoing the commands an undo run moved, reversed, onto a redo stack puts them back in order. */
  lemma RedoMovesBack(kept: seq<Command>, redo: seq<Command>, moved: seq<Command>)
    ensures RedoTimes(Stacks(kept, redo + Reversed(moved)), |moved|) == Stacks(kept + moved, redo)
  {
    var back := Reversed(moved);
    var all := redo + back;
    assert |all| - |moved| == |redo|;
    assert all[..|redo|] == redo && all[|redo|..] == back;
    assert Reversed(back) == moved by {
      ReversedTwice(moved);
    }
    RedoTimesMoves(Stacks(kept, all), |moved|);
  }
}
