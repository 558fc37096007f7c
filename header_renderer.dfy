/** Column header captions: 0 -> "A", 25 -> "Z", 26 -> "AA", ... */
module Headers {
  import opened Strings
  import opened Address

  /** C#'s integer division, which truncates toward zero. */
  function TruncDiv(a: int, b: int): (q: int)
    requires b > 0
    ensures a >= 0 ==> q == a / b
  {
    if a >= 0 then a / b else -((-a) / b)
  }

  /** C#'s remainder, which takes the sign of the dividend. */
  function TruncMod(a: int, b: int): (m: int)
    requires b > 0
    ensures a >= 0 ==> m == a % b
    ensures -b < m < b && (a < 0 ==> m <= 0)
  {
    a - TruncDiv(a, b) * b
  }

  /**
   * The caption of column index: the bijective base-26 letters of index + 1.
   * A negative index runs the loop body once and gives the single character
   * 'A' + index % 26, at or below 'A'.
   */
  function ColumnName(index: int): (name: string)
    ensures |name| > 0
    ensures index >= 0 ==> forall i :: 0 <= i < |name| ==> IsUpperLetter(name[i])
  {
    if index >= 0 then ColumnLetters(index + 1) else [('A' as int + TruncMod(index, 26)) as char]
  }

  method GetExcelColumnName(index: int) returns (name: string)
    ensures name == ColumnName(index)
  {
    name := "";
    var i := index;
    while true
      invariant index >= 0 ==> i >= 0 && ColumnLetters(i + 1) + name == ColumnLetters(index + 1)
      invariant index < 0 ==> i == index && name == ""
      decreases i + 1
    {
      name := [('A' as int + TruncMod(i, 26)) as char] + name;
      i := TruncDiv(i, 26) - 1;
      if i < 0 {
        break;
      }
    }
  }

  /** Three captions worked out: the first, the last single letter and the first double. */
  lemma ColumnNameExamples()
    ensures ColumnName(0) == "A"
    ensures ColumnName(25) == "Z"
    ensures ColumnName(26) == "AA"
  {
    assert ColumnLetters(1) == ColumnLetters(0) + ['A'];
    assert ColumnLetters(26) == ColumnLetters(0) + ['Z'];
    assert ColumnLetters(27) == ColumnLetters(1) + ['A'];
  }

  /** The caption is the letter part of the cell name in that column. */
  lemma ColumnNameIsLetterPartOfName(row: int, index: nat)
    ensures NameOf(row, index) == ColumnName(index) + DecimalString(row + 1)
  {
  }

  /** Reading a caption back with the cell-address column rule gives the index. */
  lemma ColumnNameReadsBack(index: nat)
    ensures ColumnValue(ColumnName(index)) - 1 == index
  {
    ColumnRoundTrip(index + 1);
  }
}
